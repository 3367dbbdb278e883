/**
  The persisted credential blob and its write-through cache
  (`CredentialBlob` and `Credentials` in crates/account/src/auth.rs).
 */
module Credentials {
  import opened Wrappers
  import opened Errors

  type Token = string
  type Bytes = seq<bv8>

  const CURRENT_VERSION := 1
  const MAX_REFRESH_TOKEN_LEN := 512

  datatype Slot = Active | PendingActivation | PendingRefresh

  /** The three saved credentials. */
  datatype Slots = Slots(
    active: Option<Token>,
    pendingActivation: Option<Token>,
    pendingRefresh: Option<Token>)
  {
    predicate IsEmpty() {
      active.None? && pendingActivation.None? && pendingRefresh.None?
    }

    function Get(slot: Slot): Option<Token> {
      match slot
      case Active => active
      case PendingActivation => pendingActivation
      case PendingRefresh => pendingRefresh
    }

    function Put(slot: Slot, value: Option<Token>): Slots {
      match slot
      case Active => this.(active := value)
      case PendingActivation => this.(pendingActivation := value)
      case PendingRefresh => this.(pendingRefresh := value)
    }
  }

  const EMPTY := Slots(None, None, None)

  /** What is put into a slot is in that slot, and nowhere else. */
  lemma SlotsAreSeparate(slots: Slots, slot: Slot, value: Option<Token>)
    ensures slots.Put(slot, value) == match slot
                                      case Active => Slots(value, slots.pendingActivation, slots.pendingRefresh)
                                      case PendingActivation => Slots(slots.active, value, slots.pendingRefresh)
                                      case PendingRefresh => Slots(slots.active, slots.pendingActivation, value)
    ensures forall s: Slot :: slots.Put(slot, value).Get(s) == if s == slot then value else slots.Get(s)
  {
  }

  datatype Blob = Blob(version: nat, slots: Slots)

  const DEFAULT_BLOB := Blob(CURRENT_VERSION, EMPTY)

  /** How blobs travel as bytes. The store holds JSON; any coding that reads back what it wrote will do. */
  datatype Codec = Codec(encode: Blob -> Option<Bytes>, decode: Bytes -> Option<Blob>)

  ghost predicate Faithful(codec: Codec) {
    forall b: Blob :: codec.encode(b).Some? ==> codec.decode(codec.encode(b).value) == Some(b)
  }

  /** What a store entry means: nothing and unreadable bytes mean signed out, version 0 is version 1. */
  function Meaning(codec: Codec, entry: Option<Bytes>): Blob {
    match entry
    case None => DEFAULT_BLOB
    case Some(raw) =>
      match codec.decode(raw)
      case None => DEFAULT_BLOB
      case Some(blob) => if blob.version == 0 then blob.(version := CURRENT_VERSION) else blob
  }

  /** Whatever the version, a readable entry means the slots it has. */
  lemma MeaningIsWhatWasWritten(codec: Codec, raw: Bytes)
    ensures match codec.decode(raw)
            case Some(blob) => Meaning(codec, Some(raw)).slots == blob.slots
            case None => Meaning(codec, Some(raw)).slots == Slots(None, None, None)
    ensures Meaning(codec, None).slots == Slots(None, None, None)
  {
  }

  /** An entry the first load may remove: it says nothing, and no newer version wrote it. */
  predicate Discardable(codec: Codec, entry: Option<Bytes>) {
    var meaning := Meaning(codec, entry);
    meaning.slots.IsEmpty() && meaning.version <= CURRENT_VERSION
  }

  /** The host's secret store: one entry; a failed call leaves it as it was, and is counted. */
  class PlatformStore {
    var entry: Option<Bytes>
    var failures: nat

    constructor (entry: Option<Bytes>)
      ensures this.entry == entry && failures == 0
    {
      this.entry := entry;
      failures := 0;
    }

    method Load() returns (r: Result<Option<Bytes>, StoreFailure>)
      modifies this`failures
      ensures r.Ok? ==> r.value == entry
      ensures failures == old(failures) + if r.Ok? then 0 else 1
    {
      if * {
        r := Err(StoreFailure(false, "load"));
        failures := failures + 1;
      } else {
        r := Ok(entry);
      }
    }

    method Save(blob: Bytes) returns (r: Result<(), StoreFailure>)
      modifies this
      ensures entry == if r.Ok? then Some(blob) else old(entry)
      ensures failures == old(failures) + if r.Ok? then 0 else 1
    {
      if * {
        r := Err(StoreFailure(true, "save"));
        failures := failures + 1;
      } else {
        entry := Some(blob);
        r := Ok(());
      }
    }

    method Delete() returns (r: Result<(), StoreFailure>)
      modifies this
      ensures entry == if r.Ok? then None else old(entry)
      ensures failures == old(failures) + if r.Ok? then 0 else 1
    {
      if * {
        r := Err(StoreFailure(false, "delete"));
        failures := failures + 1;
      } else {
        entry := None;
        r := Ok(());
      }
    }
  }

  /** What this process believes of the store; a change is believed only once it is saved. */
  class Credentials {
    const platform: PlatformStore
    const codec: Codec
    var cache: Option<Blob>

    /** The slots the stored bytes stand for. */
    ghost function Stored(): Slots
      reads this, platform
    {
      Meaning(codec, platform.entry).slots
    }

    /** The entry reads back as these slots; without any there is none. */
    ghost predicate Holds(slots: Slots)
      reads this, platform
    {
      if slots == Slots(None, None, None) then platform.entry.None?
      else
        && platform.entry.Some? && codec.decode(platform.entry.value).Some?
        && codec.decode(platform.entry.value).value.slots == slots
    }

    /**
      A loaded cache agrees with the store on every slot. The version may differ only
      after the last slot of a newer version's blob was deleted, with its entry.
     */
    ghost predicate Valid()
      reads this, platform
    {
      Faithful(codec) &&
      (cache.Some? ==> cache.value.version != 0) &&
      (cache.Some? ==>
         || cache.value == Meaning(codec, platform.entry)
         || (cache.value.slots == EMPTY && platform.entry.None?))
    }

    /** A new process: nothing is cached, whatever the store holds. */
    constructor (platform: PlatformStore, codec: Codec)
      requires Faithful(codec)
      ensures Valid() && this.platform == platform && this.codec == codec && cache.None?
      ensures Stored() == Meaning(codec, platform.entry).slots
    {
      this.platform := platform;
      this.codec := codec;
      cache := None;
    }

    /** Loads the cache on first use; a corrupt or useless entry is removed if it can be and reads as empty either way. */
    method EnsureLoaded() returns (r: Result<Blob, AuthError>)
      requires Valid()
      modifies this`cache, platform
      ensures Valid() && Stored() == old(Stored())
      ensures r.Ok? ==> cache == Some(r.value) && r.value.slots == Stored()
      ensures r.Err? ==> r.error.Store? && cache == old(cache) && platform.entry == old(platform.entry)
      ensures platform.entry == old(platform.entry)
              || (platform.entry.None? && old(Discardable(codec, platform.entry)))
      ensures old(cache).Some? ==> r.Ok? && cache == old(cache) && platform.entry == old(platform.entry)
      ensures platform.failures >= old(platform.failures) && (r.Err? ==> platform.failures > old(platform.failures))
      ensures r.Ok? && old(cache).None? && old(platform.entry).Some? ==>
                match codec.decode(old(platform.entry).value)
                case None => r.value == Blob(1, Slots(None, None, None))
                case Some(blob) =>
                  && r.value.slots == blob.slots && r.value.version == (if blob.version == 0 then 1 else blob.version)
                  && (blob.slots != Slots(None, None, None) || blob.version > 1 ==> platform.entry == old(platform.entry))
      ensures r.Ok? && old(cache).None? && old(platform.entry).None? ==> r.value == Blob(1, Slots(None, None, None))
    {
      if cache.None? {
        var loaded := platform.Load();
        match loaded {
          case Err(error) =>
            return Err(Store(StoreError("load: " + error.message, error.locked)));
          case Ok(None) =>
            cache := Some(DEFAULT_BLOB);
          case Ok(Some(raw)) =>
            match codec.decode(raw) {
              case None =>
                var _ := platform.Delete();
                cache := Some(DEFAULT_BLOB);
              case Some(decoded) =>
                var blob := if decoded.version == 0 then decoded.(version := CURRENT_VERSION) else decoded;
                if blob.slots.IsEmpty() && blob.version <= CURRENT_VERSION {
                  var _ := platform.Delete();
                }
                cache := Some(blob);
            }
        }
      }
      r := Ok(cache.value);
    }

    /** Saves `next`, or removes the entry when nothing is left to save. */
    method Persist(next: Blob) returns (r: Result<(), AuthError>)
      requires Valid()
      modifies platform
      ensures r.Err? ==> r.error.Store? && platform.entry == old(platform.entry)
      ensures r.Ok? && next.slots.IsEmpty() ==> platform.entry.None?
      ensures r.Ok? && !next.slots.IsEmpty() ==>
                platform.entry.Some? && codec.decode(platform.entry.value) == Some(next)
    {
      if next.slots.IsEmpty() {
        var deleted := platform.Delete();
        if deleted.Err? {
          return Err(Store(StoreError("delete: " + deleted.error.message, deleted.error.locked)));
        }
        return Ok(());
      }
      match codec.encode(next) {
        case None =>
          r := Err(Store(StoreError("encode", false)));
        case Some(raw) =>
          var saved := platform.Save(raw);
          if saved.Err? {
            return Err(Store(StoreError("save: " + saved.error.message, saved.error.locked)));
          }
          r := Ok(());
      }
    }

    method Get(slot: Slot) returns (r: Result<Option<Token>, AuthError>)
      requires Valid()
      modifies this`cache, platform
      ensures Valid() && Stored() == old(Stored())
      ensures r.Ok? ==> r.value == Stored().Get(slot)
      ensures old(cache).Some? ==> r.Ok?
      ensures r.Err? ==> r.error.Store?
      ensures platform.entry == old(platform.entry)
              || (platform.entry.None? && old(Discardable(codec, platform.entry)))
      ensures platform.failures >= old(platform.failures) && (r.Err? ==> platform.failures > old(platform.failures))
      ensures r.Ok? && old(cache).None? ==>
                if old(platform.entry).Some? && codec.decode(old(platform.entry).value).Some? then
                  var blob := codec.decode(old(platform.entry).value).value;
                  && r.value == (match slot
                                 case Active => blob.slots.active
                                 case PendingActivation => blob.slots.pendingActivation
                                 case PendingRefresh => blob.slots.pendingRefresh)
                  && (blob.slots != Slots(None, None, None) || blob.version > 1 ==> platform.entry == old(platform.entry))
                else r.value.None?
    {
      var loaded := EnsureLoaded();
      match loaded {
        case Err(error) => r := Err(error);
        case Ok(blob) => r := Ok(blob.slots.Get(slot));
      }
    }

    method Set(slot: Slot, value: Token) returns (r: Result<(), AuthError>)
      requires Valid()
      modifies this`cache, platform
      ensures Valid()
      ensures Stored() == if r.Ok? then old(Stored()).Put(slot, Some(value)) else old(Stored())
      ensures |value| > 512 ==>
                r == Err(Untrusted(CredentialTooLarge)) && cache == old(cache) && platform.entry == old(platform.entry)
      ensures |value| <= 512 && r.Err? ==> r.error.Store?
      ensures r.Ok? ==> Holds(Stored())
    {
      if |value| > MAX_REFRESH_TOKEN_LEN {
        return Err(Untrusted(CredentialTooLarge));
      }
      var loaded := EnsureLoaded();
      if loaded.Err? {
        return Err(loaded.error);
      }
      var next := loaded.value.(slots := loaded.value.slots.Put(slot, Some(value)));
      r := Persist(next);
      if r.Ok? {
        cache := Some(next);
      }
    }

    method Delete(slot: Slot) returns (r: Result<(), AuthError>)
      requires Valid()
      modifies this`cache, platform
      ensures Valid()
      ensures Stored() == if r.Ok? then old(Stored()).Put(slot, None) else old(Stored())
      ensures r.Err? ==> r.error.Store?
      ensures r.Ok? && Stored() != old(Stored()) ==> Holds(Stored())
    {
      var loaded := EnsureLoaded();
      if loaded.Err? {
        return Err(loaded.error);
      }
      if loaded.value.slots.Get(slot).None? {
        return Ok(());
      }
      var next := loaded.value.(slots := loaded.value.slots.Put(slot, None));
      r := Persist(next);
      if r.Ok? {
        cache := Some(next);
      }
    }

    /** Leaves the slot alone if it has changed hands. */
    method DeleteIf(slot: Slot, expected: Token) returns (r: Result<(), AuthError>)
      requires Valid()
      modifies this`cache, platform
      ensures Valid()
      ensures Stored() == if r.Ok? then WithoutExpected(old(Stored()), slot, expected) else old(Stored())
      ensures r.Err? ==> r.error.Store?
    {
      var held := Get(slot);
      if held.Err? {
        return Err(held.error);
      }
      if held.value == Some(expected) {
        r := Delete(slot);
      } else {
        r := Ok(());
      }
    }

    /** Afterwards the store has no entry, even if what it had was of a newer version. */
    method Clear() returns (r: Result<(), AuthError>)
      requires Valid()
      modifies this`cache, platform
      ensures Valid()
      ensures Stored() == if r.Ok? then EMPTY else old(Stored())
      ensures r.Ok? ==> platform.entry.None?
      ensures r.Err? ==> r.error.Store?
      ensures platform.failures >= old(platform.failures) && (r.Err? ==> platform.failures > old(platform.failures))
    {
      var loaded := EnsureLoaded();
      if loaded.Err? {
        return Err(loaded.error);
      }
      var deleted := platform.Delete();
      if deleted.Err? {
        return Err(Store(StoreError("delete: " + deleted.error.message, deleted.error.locked)));
      }
      cache := Some(DEFAULT_BLOB);
      r := Ok(());
    }
  }

  /** The slots after deleting `slot` if it still holds `expected`. */
  function WithoutExpected(slots: Slots, slot: Slot, expected: Token): Slots {
    if slots.Get(slot) == Some(expected) then slots.Put(slot, None) else slots
  }
}
