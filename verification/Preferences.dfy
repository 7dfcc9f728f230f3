/** Display identities and the stored preference (crates/lockdock-daemon/src/preferences.rs and the
    identity functions of display_state.rs). */
module Preferences {
  import opened Options
  import opened Displays
  import opened DisplayLock
  import opened Environment

  datatype Identity = Identity(isBuiltin: bool, vendor: u32, model: u32, serial: u32) {
    predicate Valid() { isBuiltin || vendor != 0 || model != 0 || serial != 0 }
  }

  /** The stored keys; absent keys are `None`. Numbers are stored as 64-bit integers. */
  datatype Store = Store(legacy: bool, builtin: Option<bool>, vendor: Option<int>, model: Option<int>, serial: Option<int>)

  /** One access that changes a key. */
  datatype Edit =
    | RemoveLegacy
    | Builtin(flag: Option<bool>)
    | Vendor(number: Option<int>)
    | Model(number: Option<int>)
    | Serial(number: Option<int>)

  function Apply(store: Store, e: Edit): Store {
    match e
    case RemoveLegacy => store.(legacy := false)
    case Builtin(b) => store.(builtin := b)
    case Vendor(n) => store.(vendor := n)
    case Model(n) => store.(model := n)
    case Serial(n) => store.(serial := n)
  }

  function SaveEdits(id: Identity): seq<Edit> {
    [RemoveLegacy, Builtin(Some(id.isBuiltin)), Vendor(Some(id.vendor)), Model(Some(id.model)), Serial(Some(id.serial))]
  }

  const CLEAR_EDITS: seq<Edit> := [RemoveLegacy, Builtin(None), Vendor(None), Model(None), Serial(None)]

  datatype Written = Written(store: Store, tick: nat, ok: bool)

  /** Edits are made one after another up to the first access that fails. */
  function Write(w: World, tick: nat, store: Store, edits: seq<Edit>): Written
    decreases |edits|
  {
    if edits == [] then Written(store, tick, true)
    else if !w.store(tick) then Written(store, tick + 1, false)
    else Write(w, tick + 1, Apply(store, edits[0]), edits[1..])
  }

  /** The next `n` preference accesses from tick `t` on succeed. */
  predicate Accesses(w: World, t: nat, n: nat) {
    forall u :: t <= u < t + n ==> w.store(u)
  }

  /** A write succeeds exactly when all its accesses do, and then ends after them. */
  lemma WriteSucceedsIff(w: World, tick: nat, store: Store, edits: seq<Edit>)
    ensures var r := Write(w, tick, store, edits);
            && (r.ok <==> Accesses(w, tick, |edits|)) && (r.ok ==> r.tick == tick + |edits|)
  {
    var done := WriteIsPrefix(w, tick, store, edits);
    WriteTick(w, tick, store, edits);
  }

  lemma {:induction false} WriteTick(w: World, tick: nat, store: Store, edits: seq<Edit>)
    ensures Write(w, tick, store, edits).ok ==> Write(w, tick, store, edits).tick == tick + |edits|
    decreases |edits|
  {
    if edits != [] && w.store(tick) {
      WriteTick(w, tick + 1, Apply(store, edits[0]), edits[1..]);
    }
  }

  function ApplyAll(store: Store, edits: seq<Edit>): Store
    decreases |edits|
  {
    if edits == [] then store else ApplyAll(Apply(store, edits[0]), edits[1..])
  }

  /** A write leaves exactly the edits before its first failing access. */
  lemma {:induction false} WriteIsPrefix(w: World, tick: nat, store: Store, edits: seq<Edit>) returns (done: nat)
    ensures done <= |edits| && Write(w, tick, store, edits).store == ApplyAll(store, edits[..done])
    ensures Write(w, tick, store, edits).ok <==> done == |edits|
    ensures forall t :: tick <= t < tick + done ==> w.store(t)
    ensures done < |edits| ==> !w.store(tick + done)
    ensures tick <= Write(w, tick, store, edits).tick
    decreases |edits|
  {
    if edits == [] || !w.store(tick) {
      done := 0;
    } else {
      var rest := WriteIsPrefix(w, tick + 1, Apply(store, edits[0]), edits[1..]);
      done := rest + 1;
      assert edits[..done][1..] == edits[1..][..rest];
    }
  }

  // ----- reading

  function OrElse<T>(o: Option<T>, d: T): T { if o.Some? then o.value else d }

  /** Conversion to 32 bits; numbers out of range become 0. */
  function Narrow(n: int): u32 { if 0 <= n < 0x1_0000_0000 then n else 0 }

  /** What the keys say, absent and out-of-range ones as false and 0. */
  function Keys(store: Store): Identity {
    Identity(OrElse(store.builtin, false), Narrow(OrElse(store.vendor, 0)), Narrow(OrElse(store.model, 0)),
             Narrow(OrElse(store.serial, 0)))
  }

  function Validated(id: Identity): (r: Option<Identity>)
    ensures r.Some? ==> r.value == id && id.Valid()
    ensures r.None? ==> id == Identity(false, 0, 0, 0)
  {
    if id.Valid() then Some(id) else None
  }

  /** The identity the keys hold, when it is valid. */
  function Stored(store: Store): (id: Option<Identity>)
    ensures id.Some? ==> id.value.Valid()
  {
    Validated(Keys(store))
  }

  datatype Loaded = LoadError | LoadedIdentity(id: Option<Identity>)

  /** Four key reads, stopping at the first that fails. */
  function Load(w: World, tick: nat, store: Store): (r: Part<Loaded>)
    ensures r.log == [] && tick < r.tick <= tick + 4
    ensures r.value.LoadedIdentity? ==> r.value.id == Stored(store)
  {
    if !w.store(tick) then Part(LoadError, tick + 1, [])
    else if !w.store(tick + 1) then Part(LoadError, tick + 2, [])
    else if !w.store(tick + 2) then Part(LoadError, tick + 3, [])
    else if !w.store(tick + 3) then Part(LoadError, tick + 4, [])
    else Part(LoadedIdentity(Stored(store)), tick + 4, [])
  }

  /** A load answers what is stored if and only if all four reads succeed; it stops at the first failure. */
  lemma LoadStopsAtFirstFailure(w: World, tick: nat, store: Store)
    ensures Load(w, tick, store).value == LoadedIdentity(Stored(store)) <==> forall t :: tick <= t < tick + 4 ==> w.store(t)
    ensures Load(w, tick, store).value.LoadError? ==>
              !w.store(Load(w, tick, store).tick - 1) && forall t :: tick <= t < Load(w, tick, store).tick - 1 ==> w.store(t)
  {
    if forall t :: tick <= t < tick + 4 ==> w.store(t) {
      assert w.store(tick) && w.store(tick + 1) && w.store(tick + 2) && w.store(tick + 3);
    }
  }

  lemma FiveEdits(store: Store, a: Edit, b: Edit, c: Edit, d: Edit, e: Edit)
    ensures ApplyAll(store, [a, b, c, d, e]) == Apply(Apply(Apply(Apply(Apply(store, a), b), c), d), e)
  {
    assert [a, b, c, d, e][1..] == [b, c, d, e];
    assert [b, c, d, e][1..] == [c, d, e];
    assert [c, d, e][1..] == [d, e];
    assert [d, e][1..] == [e] && [e][1..] == [];
    var s1 := Apply(store, a);
    var s2 := Apply(s1, b);
    var s3 := Apply(s2, c);
    assert ApplyAll(Apply(s3, d), [e]) == Apply(Apply(s3, d), e);
    assert ApplyAll(s3, [d, e]) == Apply(Apply(s3, d), e);
    assert ApplyAll(s1, [b, c, d, e]) == ApplyAll(s2, [c, d, e]) == ApplyAll(s3, [d, e]);
  }

  /** After a complete save, loading returns the identity exactly when it is valid, and nothing else. */
  lemma SaveLoadRoundTrip(w: World, tick: nat, store: Store, id: Identity)
    requires Write(w, tick, store, SaveEdits(id)).ok
    ensures Stored(Write(w, tick, store, SaveEdits(id)).store) == if id.Valid() then Some(id) else None
  {
    var done := WriteIsPrefix(w, tick, store, SaveEdits(id));
    assert SaveEdits(id)[..5] == SaveEdits(id);
    FiveEdits(store, RemoveLegacy, Builtin(Some(id.isBuiltin)), Vendor(Some(id.vendor)), Model(Some(id.model)), Serial(Some(id.serial)));
  }

  /** After a complete clear nothing is loaded, whatever was stored. */
  lemma ClearForgets(w: World, tick: nat, store: Store)
    requires Write(w, tick, store, CLEAR_EDITS).ok
    ensures Stored(Write(w, tick, store, CLEAR_EDITS).store) == None
  {
    var done := WriteIsPrefix(w, tick, store, CLEAR_EDITS);
    assert CLEAR_EDITS[..5] == CLEAR_EDITS;
    FiveEdits(store, RemoveLegacy, Builtin(None), Vendor(None), Model(None), Serial(None));
  }

  /** The identity the keys hold once the first `done` accesses of a save of `id` over `was` are made. */
  function Mixture(was: Identity, id: Identity, done: nat): Identity {
    Identity(if done >= 2 then id.isBuiltin else was.isBuiltin, if done >= 3 then id.vendor else was.vendor,
             if done >= 4 then id.model else was.model, if done >= 5 then id.serial else was.serial)
  }

  lemma {:induction false} SavedKeys(store: Store, id: Identity, done: nat)
    requires done <= 5
    ensures Keys(ApplyAll(store, SaveEdits(id)[..done])) == Mixture(Keys(store), id, done)
    decreases done
  {
    if done > 0 {
      var edits := SaveEdits(id)[..done];
      SavedKeys(store, id, done - 1);
      ApplyLast(store, edits);
      assert edits[..done - 1] == SaveEdits(id)[..done - 1];
    }
  }

  lemma {:induction false} ApplyLast(store: Store, edits: seq<Edit>)
    requires edits != []
    ensures ApplyAll(store, edits) == Apply(ApplyAll(store, edits[..|edits| - 1]), edits[|edits| - 1])
    decreases |edits|
  {
    hide Apply;
    if |edits| > 1 {
      assert edits[1..][..|edits| - 2] == edits[..|edits| - 1][1..];
      ApplyLast(Apply(store, edits[0]), edits[1..]);
    } else {
      assert edits[..0] == [];
    }
  }

  /** What any save leaves stored, for every store, identity and first failing access: the keys written
      before the failure are new, the others old. */
  lemma SaveLeavesMixture(w: World, tick: nat, store: Store, id: Identity) returns (done: nat)
    ensures done <= 5 && (forall t :: tick <= t < tick + done ==> w.store(t)) && (done < 5 ==> !w.store(tick + done))
    ensures Write(w, tick, store, SaveEdits(id)).ok <==> done == 5
    ensures Stored(Write(w, tick, store, SaveEdits(id)).store) == Validated(Mixture(Keys(store), id, done))
  {
    done := WriteIsPrefix(w, tick, store, SaveEdits(id));
    SavedKeys(store, id, done);
  }

  /** The keys written by the first `done` accesses already had the values of `id`. */
  predicate WrittenAgree(was: Identity, id: Identity, done: nat) {
    && (done >= 2 ==> was.isBuiltin == id.isBuiltin) && (done >= 3 ==> was.vendor == id.vendor)
    && (done >= 4 ==> was.model == id.model) && (done >= 5 ==> was.serial == id.serial)
  }

  /** The keys not written by the first `done` accesses already have the values of `id`. */
  predicate UnwrittenAgree(was: Identity, id: Identity, done: nat) {
    && (done < 2 ==> was.isBuiltin == id.isBuiltin) && (done < 3 ==> was.vendor == id.vendor)
    && (done < 4 ==> was.model == id.model) && (done < 5 ==> was.serial == id.serial)
  }

  /** When a save leaves either what was stored or the new identity: if and only if the keys written
      before the first failure, or those after it, already agreed with the new identity. A failure at
      one of the first two accesses, or none, always qualifies. */
  lemma SaveIsAtomicExactlyWhen(w: World, tick: nat, store: Store, id: Identity) returns (done: nat)
    requires id.Valid()
    ensures done <= 5 && (forall t :: tick <= t < tick + done ==> w.store(t)) && (done < 5 ==> !w.store(tick + done))
    ensures var left := Stored(Write(w, tick, store, SaveEdits(id)).store);
            left == Stored(store) || left == Some(id) <==>
            WrittenAgree(Keys(store), id, done) || UnwrittenAgree(Keys(store), id, done)
    ensures done <= 1 ==> Stored(Write(w, tick, store, SaveEdits(id)).store) == Stored(store)
    ensures done == 5 ==> Stored(Write(w, tick, store, SaveEdits(id)).store) == Some(id)
  {
    done := SaveLeavesMixture(w, tick, store, id);
    hide Keys;
  }

  /** So a save is not atomic: one that fails at its fourth access can leave an identity that is neither
      the old one nor the new one. */
  lemma FailedSaveMixesIdentities(w: World, tick: nat)
    requires w.store(tick) && w.store(tick + 1) && w.store(tick + 2) && !w.store(tick + 3)
    ensures var before, after := Identity(false, 1, 1, 1), Identity(false, 2, 2, 2);
            var store := Store(false, Some(false), Some(1), Some(1), Some(1));
            && Stored(store) == Some(before)
            && !Write(w, tick, store, SaveEdits(after)).ok
            && Stored(Write(w, tick, store, SaveEdits(after)).store) == Some(Identity(false, 2, 1, 1))
  {
    hide Write;
    var store := Store(false, Some(false), Some(1), Some(1), Some(1));
    var done := SaveLeavesMixture(w, tick, store, Identity(false, 2, 2, 2));
    assert done == 3;
  }

  // ----- identities of displays

  /** `display_identity`: an error for unknown displays and all-zero identities. */
  function IdentityOf(d: DisplayId, info: map<DisplayId, DisplayInfo>): (id: Option<Identity>)
    ensures id.Some? ==> id.value.Valid()
  {
    if d in info then
      var id := Identity(info[d].isBuiltin, info[d].vendor, info[d].model, info[d].serial);
      if id.Valid() then Some(id) else None
    else None
  }

  /** A display has identity `id` if and only if `id` is what the info table says of it, and valid. */
  lemma IdentityIsListed(d: DisplayId, info: map<DisplayId, DisplayInfo>, id: Identity)
    ensures IdentityOf(d, info) == Some(id) <==>
            d in info && id == Identity(info[d].isBuiltin, info[d].vendor, info[d].model, info[d].serial) && id.Valid()
  {
  }

  /** The first listed display with identity `id`. */
  function FindByIdentity(id: Identity, displays: seq<DisplayId>, info: map<DisplayId, DisplayInfo>): (d: Option<DisplayId>)
    ensures d.Some? ==> d.value in displays && IdentityOf(d.value, info) == Some(id)
    ensures d.None? ==> forall e :: e in displays ==> IdentityOf(e, info) != Some(id)
  {
    if displays == [] then None
    else if IdentityOf(displays[0], info) == Some(id) then Some(displays[0])
    else FindByIdentity(id, displays[1..], info)
  }

  /** It is the first of them: nothing listed before it has that identity. */
  lemma {:induction false} FoundIsFirst(id: Identity, displays: seq<DisplayId>, info: map<DisplayId, DisplayInfo>) returns (k: nat)
    requires exists e :: e in displays && IdentityOf(e, info) == Some(id)
    ensures k < |displays| && FindByIdentity(id, displays, info) == Some(displays[k]) && IdentityOf(displays[k], info) == Some(id)
    ensures forall j :: 0 <= j < k ==> IdentityOf(displays[j], info) != Some(id)
  {
    hide IdentityOf;
    k := 0;
    if IdentityOf(displays[0], info) != Some(id) {
      var rest := FoundIsFirst(id, displays[1..], info);
      k := rest + 1;
      forall j | 0 <= j < k
        ensures IdentityOf(displays[j], info) != Some(id)
      {
        if j > 0 {
          assert displays[j] == displays[1..][j - 1];
        }
      }
    }
  }
}
