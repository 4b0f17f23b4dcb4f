/** A session segment: a name-scoped view of the session's data and of its
    flash values for the current and the next request. The session store
    (the superglobal session array together with the session object's
    started and resumable state) is modelled as one object whose three
    maps hold, for each segment name, the segment's data, its flash values
    for now and its flash values for the next request. */
module Session {
  import opened Wrappers
  import opened Php

  // ------------------------------------------------------------ PHP arrays

  /** The key `$a[] = v` uses: one more than the largest integer key, or 0. */
  function NextIndex(es: seq<Entry>): (n: nat)
    ensures forall j :: 0 <= j < |es| && es[j].key.IntKey? ==> es[j].key.i < n
  {
    if |es| == 0 then 0
    else
      var n := NextIndex(es[..|es| - 1]);
      assert forall j :: 0 <= j < |es| - 1 ==> es[..|es| - 1][j] == es[j];
      match es[|es| - 1].key
      case IntKey(i) => if i + 1 > n then i + 1 else n
      case StrKey(_) => n
  }

  /** `$a[] = v`. */
  function Append(es: seq<Entry>, v: Value): seq<Entry>
  {
    es + [Entry(IntKey(NextIndex(es)), v)]
  }

  lemma {:induction false} LookupAppend(es: seq<Entry>, e: Entry, k: Key)
    ensures Lookup(es + [e], k) == if Lookup(es, k).Some? then Lookup(es, k) else if e.key == k then Some(e.val) else None
  {
    if |es| > 0 {
      assert (es + [e])[1..] == es[1..] + [e];
      LookupAppend(es[1..], e, k);
    } else {
      assert es + [e] == [e];
    }
  }

  /** The appended value sits under a key the array did not have; nothing else changes. */
  lemma AppendFresh(es: seq<Entry>, v: Value)
    ensures Lookup(es, IntKey(NextIndex(es))) == None
    ensures Lookup(Append(es, v), IntKey(NextIndex(es))) == Some(v)
    ensures forall k :: k != IntKey(NextIndex(es)) ==> Lookup(Append(es, v), k) == Lookup(es, k)
  {
    var e := Entry(IntKey(NextIndex(es)), v);
    forall k
      ensures Lookup(es + [e], k) == if Lookup(es, k).Some? then Lookup(es, k) else if e.key == k then Some(e.val) else None
    {
      LookupAppend(es, e, k);
    }
  }

  /** One entry of `array_merge`: a string key overwrites in place, an
      integer key appends under a fresh index. */
  function MergeEntry(acc: seq<Entry>, e: Entry): seq<Entry>
  {
    if e.key.IntKey? then Append(acc, e.val) else Put(acc, e.key, e.val)
  }

  function MergeInto(acc: seq<Entry>, es: seq<Entry>): seq<Entry>
  {
    if |es| == 0 then acc else MergeEntry(MergeInto(acc, es[..|es| - 1]), es[|es| - 1])
  }

  /** `array_merge(a, b)`: the entries of `a`, then those of `b`, with the
      integer keys renumbered from 0. */
  function Merge(a: seq<Entry>, b: seq<Entry>): seq<Entry>
  {
    MergeInto(MergeInto([], a), b)
  }

  /** The values under integer keys, in order. */
  function IntValues(es: seq<Entry>): seq<Value>
  {
    if |es| == 0 then [] else IntValues(es[..|es| - 1]) + (if es[|es| - 1].key.IntKey? then [es[|es| - 1].val] else [])
  }

  lemma {:induction false} IntValuesCons(e: Entry, es: seq<Entry>)
    ensures IntValues([e] + es) == (if e.key.IntKey? then [e.val] else []) + IntValues(es)
    decreases |es|
  {
    if |es| > 0 {
      var init := es[..|es| - 1];
      assert ([e] + es)[..|es|] == [e] + init;
      IntValuesCons(e, init);
    } else {
      assert [e] + es == [e];
      assert [e][..0] == [];
    }
  }

  /** Writing a string key leaves the integer-keyed values alone. */
  lemma {:induction false} IntValuesPut(es: seq<Entry>, k: string, v: Value)
    ensures IntValues(Put(es, StrKey(k), v)) == IntValues(es)
  {
    if |es| > 0 {
      assert es == [es[0]] + es[1..];
      IntValuesCons(es[0], es[1..]);
      if es[0].key == StrKey(k) {
        IntValuesCons(Entry(StrKey(k), v), es[1..]);
      } else {
        IntValuesPut(es[1..], k, v);
        IntValuesCons(es[0], Put(es[1..], StrKey(k), v));
      }
    }
  }

  lemma IntValuesAppend(es: seq<Entry>, v: Value)
    ensures IntValues(Append(es, v)) == IntValues(es) + [v]
  {
    assert Append(es, v)[..|es|] == es;
  }

  /** Merging keeps the integer-keyed values of both arrays, in order. */
  lemma {:induction false} MergeIntValues(acc: seq<Entry>, es: seq<Entry>)
    ensures IntValues(MergeInto(acc, es)) == IntValues(acc) + IntValues(es)
  {
    if |es| > 0 {
      var init := es[..|es| - 1];
      var e := es[|es| - 1];
      MergeIntValues(acc, init);
      var m := MergeInto(acc, init);
      if e.key.IntKey? {
        IntValuesAppend(m, e.val);
      } else {
        IntValuesPut(m, e.key.s, e.val);
      }
    }
  }

  /** Under a string key, the merged value is the last array's value when it has one. */
  lemma {:induction false} MergeStringKey(acc: seq<Entry>, es: seq<Entry>, k: string)
    requires UniqueKeys(es)
    ensures Lookup(MergeInto(acc, es), StrKey(k)) ==
      if Lookup(es, StrKey(k)).Some? then Lookup(es, StrKey(k)) else Lookup(acc, StrKey(k))
  {
    if |es| > 0 {
      UniqueInit(es);
      MergeStringKey(acc, es[..|es| - 1], k);
      MergeStringStep(acc, es, k);
    }
  }

  /** The last entry of `es`, whose key the others do not have, keeps the
      string-key reading of `MergeStringKey`. */
  lemma MergeStringStep(acc: seq<Entry>, es: seq<Entry>, k: string)
    requires |es| > 0
    requires Lookup(es[..|es| - 1], es[|es| - 1].key) == None
    requires Lookup(MergeInto(acc, es[..|es| - 1]), StrKey(k)) ==
      if Lookup(es[..|es| - 1], StrKey(k)).Some? then Lookup(es[..|es| - 1], StrKey(k)) else Lookup(acc, StrKey(k))
    ensures Lookup(MergeInto(acc, es), StrKey(k)) ==
      if Lookup(es, StrKey(k)).Some? then Lookup(es, StrKey(k)) else Lookup(acc, StrKey(k))
  {
    var init := es[..|es| - 1];
    var e := es[|es| - 1];
    MergeEntryString(MergeInto(acc, init), e, k);
    assert es == init + [e];
    LookupAppend(init, e, StrKey(k));
  }

  /** One merged entry sets only its own string key. */
  lemma MergeEntryString(acc: seq<Entry>, e: Entry, k: string)
    ensures Lookup(MergeEntry(acc, e), StrKey(k)) ==
      if e.key == StrKey(k) then Some(e.val) else Lookup(acc, StrKey(k))
  {
    if e.key.IntKey? {
      AppendFresh(acc, e.val);
    }
  }

  /** Without its last entry an array still has unique keys, none of them the last one's. */
  lemma UniqueInit(es: seq<Entry>)
    requires UniqueKeys(es) && |es| > 0
    ensures UniqueKeys(es[..|es| - 1])
    ensures Lookup(es[..|es| - 1], es[|es| - 1].key) == None
  {
    var init := es[..|es| - 1];
    forall i, j | 0 <= i < j < |init| ensures init[i].key != init[j].key {
      assert init[i] == es[i] && init[j] == es[j];
    }
    forall j | 0 <= j < |init| ensures init[j].key != es[|es| - 1].key {
      assert init[j] == es[j];
    }
  }

  /** `array_merge(next, now)`: the current value wins under a string key,
      a string key only in `next` keeps its value, and the integer-keyed
      values of `next` come first, then those of `now`. */
  lemma MergeFlash(next: seq<Entry>, now: seq<Entry>, k: string)
    requires UniqueKeys(next) && UniqueKeys(now)
    ensures Lookup(Merge(next, now), StrKey(k)) ==
      if Lookup(now, StrKey(k)).Some? then Lookup(now, StrKey(k)) else Lookup(next, StrKey(k))
    ensures IntValues(Merge(next, now)) == IntValues(next) + IntValues(now)
  {
    var first := MergeInto([], next);
    MergeStringKey(first, now, k);
    MergeStringKey([], next, k);
    MergeIntValues([], next);
    MergeIntValues(first, now);
    var e: seq<Entry> := [];
    assert IntValues(e) == [];
    assert IntValues(first) == IntValues(next);
  }

  // ---------------------------------------------------------- session store

  /** The session store: whether the session is started or can be resumed,
      and, per segment name, its data, flash-now and flash-next arrays. */
  datatype Store = Store(
    started: bool,
    resumable: bool,
    data: map<string, seq<Entry>>,
    now: map<string, seq<Entry>>,
    next: map<string, seq<Entry>>)

  predicate IsLoaded(st: Store, name: string)
  {
    name in st.data && name in st.now && name in st.next
  }

  /** Nothing outside `name` differs between the two stores. */
  ghost predicate SameElsewhere(a: Store, b: Store, name: string)
  {
    (forall n :: n != name ==> (n in a.data <==> n in b.data) && (n in a.data ==> a.data[n] == b.data[n])) &&
    (forall n :: n != name ==> (n in a.now <==> n in b.now) && (n in a.now ==> a.now[n] == b.now[n])) &&
    (forall n :: n != name ==> (n in a.next <==> n in b.next) && (n in a.next ==> a.next[n] == b.next[n]))
  }

  function Fill(m: map<string, seq<Entry>>, name: string): map<string, seq<Entry>>
  {
    if name in m then m else m[name := []]
  }

  /** `load`: the three arrays of the segment, created empty when missing. */
  function Loaded(st: Store, name: string): (r: Store)
    ensures IsLoaded(r, name)
    ensures SameElsewhere(st, r, name)
  {
    st.(data := Fill(st.data, name), now := Fill(st.now, name), next := Fill(st.next, name))
  }

  /** `resumeSession`: when the session is started or can be resumed it is
      (re)started and the segment loaded; otherwise nothing changes. */
  function Resumed(st: Store, name: string): (r: (Store, bool))
    ensures r.1 == (st.started || st.resumable)
    ensures r.1 ==> r.0.started && IsLoaded(r.0, name)
    ensures SameElsewhere(st, r.0, name)
  {
    if st.started || st.resumable then (Loaded(st.(started := true), name), true) else (st, false)
  }

  /** `resumeOrStartSession`. */
  function Ready(st: Store, name: string): (r: Store)
    ensures r.started && IsLoaded(r, name)
    ensures SameElsewhere(st, r, name)
  {
    var (s, ok) := Resumed(st, name);
    if ok then s else Loaded(s.(started := true), name)
  }

  /** `$a[$k] ?? $alt`: a missing or null value gives `alt`. */
  function ValueOr(es: seq<Entry>, k: Key, alt: Value): Value
  {
    match Lookup(es, k)
    case Some(v) => if v == Null then alt else v
    case None => alt
  }

  function Read(m: map<string, seq<Entry>>, name: string, k: Key, alt: Value): Value
  {
    if name in m then ValueOr(m[name], k, alt) else alt
  }

  function ReadAll(m: map<string, seq<Entry>>, name: string, alt: Value): Value
  {
    if name in m then Arr(m[name]) else alt
  }

  // Each operation below is the store transition of the segment method of
  // the same name; the ones that read also return the value they read.

  function GetOp(st: Store, name: string, k: Key, alt: Value): (r: (Store, Value))
    ensures SameElsewhere(st, r.0, name)
  {
    var (s, _) := Resumed(st, name);
    (s, Read(s.data, name, k, alt))
  }

  function GetSegmentOp(st: Store, name: string): (r: (Store, Option<seq<Entry>>))
    ensures SameElsewhere(st, r.0, name)
  {
    var (s, _) := Resumed(st, name);
    (s, if name in s.data then Some(s.data[name]) else None)
  }

  function SetOp(st: Store, name: string, k: Key, v: Value): (r: Store)
    ensures SameElsewhere(st, r, name)
  {
    var s := Ready(st, name);
    s.(data := s.data[name := Put(s.data[name], k, v)])
  }

  function AddOp(st: Store, name: string, v: Value): (r: Store)
    ensures SameElsewhere(st, r, name)
  {
    var s := Ready(st, name);
    s.(data := s.data[name := Append(s.data[name], v)])
  }

  function ClearOp(st: Store, name: string): (r: Store)
    ensures SameElsewhere(st, r, name)
  {
    var (s, ok) := Resumed(st, name);
    if ok then s.(data := s.data[name := []]) else s
  }

  /** `if ($key)` on an array key. */
  predicate KeyTruthy(k: Key)
  {
    k != IntKey(0) && k != StrKey("") && k != StrKey("0")
  }

  /** `remove`, with `None` standing for a null or false key. */
  function RemoveOp(st: Store, name: string, key: Option<Key>): (r: Store)
    ensures SameElsewhere(st, r, name)
  {
    var (s, ok) := Resumed(st, name);
    if !ok then s
    else if key.Some? && KeyTruthy(key.value) then
      if name in s.data && Lookup(s.data[name], key.value).Some? then
        s.(data := s.data[name := Remove(s.data[name], key.value)])
      else s
    else s.(data := s.data - {name})
  }

  function SetFlashOp(st: Store, name: string, k: Key, v: Value): (r: Store)
    ensures SameElsewhere(st, r, name)
  {
    var s := Ready(st, name);
    s.(next := s.next[name := Put(s.next[name], k, v)])
  }

  function AddFlashOp(st: Store, name: string, v: Value): (r: Store)
    ensures SameElsewhere(st, r, name)
  {
    var s := Ready(st, name);
    s.(next := s.next[name := Append(s.next[name], v)])
  }

  function GetFlashOp(st: Store, name: string, k: Key, alt: Value): (r: (Store, Value))
    ensures SameElsewhere(st, r.0, name)
  {
    var (s, _) := Resumed(st, name);
    (s, Read(s.now, name, k, alt))
  }

  function GetAllCurrentFlashOp(st: Store, name: string, alt: Value): (r: (Store, Value))
    ensures SameElsewhere(st, r.0, name)
  {
    var (s, _) := Resumed(st, name);
    (s, ReadAll(s.now, name, alt))
  }

  function ClearFlashOp(st: Store, name: string): (r: Store)
    ensures SameElsewhere(st, r, name)
  {
    var (s, ok) := Resumed(st, name);
    if ok then s.(next := s.next[name := []]) else s
  }

  function GetFlashNextOp(st: Store, name: string, k: Key, alt: Value): (r: (Store, Value))
    ensures SameElsewhere(st, r.0, name)
  {
    var (s, _) := Resumed(st, name);
    (s, Read(s.next, name, k, alt))
  }

  function GetAllFlashNextOp(st: Store, name: string, alt: Value): (r: (Store, Value))
    ensures SameElsewhere(st, r.0, name)
  {
    var (s, _) := Resumed(st, name);
    (s, ReadAll(s.next, name, alt))
  }

  function SetFlashNowOp(st: Store, name: string, k: Key, v: Value): (r: Store)
    ensures SameElsewhere(st, r, name)
  {
    var s := Ready(st, name);
    s.(now := s.now[name := Put(s.now[name], k, v)], next := s.next[name := Put(s.next[name], k, v)])
  }

  function AddFlashNowOp(st: Store, name: string, v: Value): (r: Store)
    ensures SameElsewhere(st, r, name)
  {
    var s := Ready(st, name);
    s.(now := s.now[name := Append(s.now[name], v)], next := s.next[name := Append(s.next[name], v)])
  }

  function ClearFlashNowOp(st: Store, name: string): (r: Store)
    ensures SameElsewhere(st, r, name)
  {
    var (s, ok) := Resumed(st, name);
    if ok then s.(now := s.now[name := []], next := s.next[name := []]) else s
  }

  function KeepFlashOp(st: Store, name: string): (r: Store)
    ensures SameElsewhere(st, r, name)
  {
    var (s, ok) := Resumed(st, name);
    if ok then s.(next := s.next[name := Merge(s.next[name], s.now[name])]) else s
  }

  // ----------------------------------------------------------- properties

  /** Loading creates only what is missing and is idempotent. */
  lemma LoadedFills(st: Store, name: string)
    ensures Loaded(st, name).data[name] == if name in st.data then st.data[name] else []
    ensures Loaded(st, name).now[name] == if name in st.now then st.now[name] else []
    ensures Loaded(st, name).next[name] == if name in st.next then st.next[name] else []
    ensures Loaded(Loaded(st, name), name) == Loaded(st, name)
  {
  }

  /** Every writer leaves the session started, whatever its state before. */
  lemma ReadyStarts(st: Store, name: string)
    ensures Ready(st, name) == Loaded(st.(started := true), name)
  {
  }

  /** A value set is the value read back, unless it is null. */
  lemma GetAfterSet(st: Store, name: string, k: Key, v: Value, alt: Value)
    ensures GetOp(SetOp(st, name, k, v), name, k, alt).1 == if v == Null then alt else v
  {
    var s := SetOp(st, name, k, v);
    assert s.started && IsLoaded(s, name);
    assert Resumed(s, name).0.data == s.data;
  }

  /** Setting one key does not change what another key reads. */
  lemma GetOtherAfterSet(st: Store, name: string, k: Key, k': Key, v: Value, alt: Value)
    requires k' != k
    ensures GetOp(SetOp(st, name, k, v), name, k', alt).1 == Read(Ready(st, name).data, name, k', alt)
  {
    var s := SetOp(st, name, k, v);
    assert Resumed(s, name).0.data == s.data;
  }

  /** `add` stores the value under a key the segment did not use and keeps every other key. */
  lemma AddAppends(st: Store, name: string, v: Value)
    ensures var before := Ready(st, name).data[name];
      var after := AddOp(st, name, v).data[name];
      Lookup(before, IntKey(NextIndex(before))) == None &&
      Lookup(after, IntKey(NextIndex(before))) == Some(v) &&
      forall k :: k != IntKey(NextIndex(before)) ==> Lookup(after, k) == Lookup(before, k)
  {
    AppendFresh(Ready(st, name).data[name], v);
  }

  /** Without a started or resumable session, the clearing and removing
      operations change nothing and the readers return their fallback. */
  lemma IdleSession(st: Store, name: string, key: Option<Key>, k: Key, alt: Value)
    requires !st.started && !st.resumable
    ensures ClearOp(st, name) == st && ClearFlashOp(st, name) == st && ClearFlashNowOp(st, name) == st
    ensures RemoveOp(st, name, key) == st && KeepFlashOp(st, name) == st
    ensures GetOp(st, name, k, alt) == (st, Read(st.data, name, k, alt))
  {
  }

  /** With a started or resumable session, `clear` empties the segment. */
  lemma ClearEmpties(st: Store, name: string)
    requires st.started || st.resumable
    ensures ClearOp(st, name).data[name] == []
    ensures ClearOp(st, name).started
  {
  }

  /** `remove`: a truthy key drops only that key, any other key argument drops the whole segment. */
  lemma RemoveCases(st: Store, name: string, key: Option<Key>)
    requires st.started || st.resumable
    ensures key.Some? && KeyTruthy(key.value) ==>
      name in RemoveOp(st, name, key).data &&
      Lookup(RemoveOp(st, name, key).data[name], key.value) == None &&
      forall k :: k != key.value ==> Lookup(RemoveOp(st, name, key).data[name], k) == Lookup(Resumed(st, name).0.data[name], k)
    ensures !(key.Some? && KeyTruthy(key.value)) ==> name !in RemoveOp(st, name, key).data
  {
  }

  /** `setFlash` is visible in the next request's flash only; `setFlashNow` in both. */
  lemma FlashVisibility(st: Store, name: string, k: Key, v: Value, alt: Value)
    requires v != Null
    ensures GetFlashNextOp(SetFlashOp(st, name, k, v), name, k, alt).1 == v
    ensures SetFlashOp(st, name, k, v).now == Ready(st, name).now
    ensures GetFlashOp(SetFlashNowOp(st, name, k, v), name, k, alt).1 == v
    ensures GetFlashNextOp(SetFlashNowOp(st, name, k, v), name, k, alt).1 == v
  {
    var a := SetFlashOp(st, name, k, v);
    assert Resumed(a, name).0.next == a.next;
    var b := SetFlashNowOp(st, name, k, v);
    assert Resumed(b, name).0.now == b.now && Resumed(b, name).0.next == b.next;
  }

  /** With a started or resumable session, `clearFlash` empties the next
      request's flash only; `clearFlashNow` empties both flash areas. The
      segment data stay as loaded. */
  lemma FlashClearing(st: Store, name: string)
    requires st.started || st.resumable
    ensures var s := Resumed(st, name).0;
      ClearFlashOp(st, name).next[name] == [] && ClearFlashOp(st, name).now == s.now &&
      ClearFlashOp(st, name).data == s.data
    ensures var s := Resumed(st, name).0;
      ClearFlashNowOp(st, name).now[name] == [] && ClearFlashNowOp(st, name).next[name] == [] &&
      ClearFlashNowOp(st, name).data == s.data
  {
  }

  /** `addFlash` appends to the next request's flash only, `addFlashNow` to
      both areas, each under the next free integer key. */
  lemma FlashAdding(st: Store, name: string, v: Value)
    ensures var s := Ready(st, name);
      Lookup(AddFlashOp(st, name, v).next[name], IntKey(NextIndex(s.next[name]))) == Some(v) &&
      AddFlashOp(st, name, v).now == s.now
    ensures var s := Ready(st, name);
      Lookup(AddFlashNowOp(st, name, v).now[name], IntKey(NextIndex(s.now[name]))) == Some(v) &&
      Lookup(AddFlashNowOp(st, name, v).next[name], IntKey(NextIndex(s.next[name]))) == Some(v)
  {
    var s := Ready(st, name);
    AppendFresh(s.next[name], v);
    AppendFresh(s.now[name], v);
  }

  /** Every array of the store has distinct keys, as every PHP array does. */
  predicate WellFormed(st: Store)
  {
    (forall n :: n in st.data ==> UniqueKeys(st.data[n])) &&
    (forall n :: n in st.now ==> UniqueKeys(st.now[n])) &&
    (forall n :: n in st.next ==> UniqueKeys(st.next[n]))
  }

  /** `keepFlash` carries the current flash values into the next request:
      a current value wins over a next one under a string key, and the
      numbered values of both are kept, the next ones first. */
  lemma KeepFlashKeeps(st: Store, name: string, k: string)
    requires WellFormed(st)
    requires st.started || st.resumable
    ensures var s := Resumed(st, name).0;
      var next := KeepFlashOp(st, name).next[name];
      (Lookup(next, StrKey(k)) ==
        if Lookup(s.now[name], StrKey(k)).Some? then Lookup(s.now[name], StrKey(k)) else Lookup(s.next[name], StrKey(k))) &&
      IntValues(next) == IntValues(s.next[name]) + IntValues(s.now[name])
  {
    var s := Resumed(st, name).0;
    assert UniqueKeys(s.now[name]) && UniqueKeys(s.next[name]) by {
      var e: seq<Entry> := [];
      assert UniqueKeys(e);
    }
    MergeFlash(s.next[name], s.now[name], k);
  }

  // ------------------------------------------------------------- objects

  /** The session: its state flags and the superglobal session array,
      split into the segment data and the two flash areas. */
  class SessionStore {
    var started: bool
    var resumable: bool
    var data: map<string, seq<Entry>>
    var now: map<string, seq<Entry>>
    var next: map<string, seq<Entry>>

    function State(): Store
      reads this
    {
      Store(started, resumable, data, now, next)
    }

    constructor (resumable: bool)
      ensures State() == Store(false, resumable, map[], map[], map[])
    {
      started := false;
      this.resumable := resumable;
      data, now, next := map[], map[], map[];
    }

    /** Resumes a session that is started or can be resumed. */
    method Resume() returns (ok: bool)
      modifies this
      ensures ok == (old(started) || old(resumable))
      ensures State() == old(State()).(started := ok)
    {
      if started {
        return true;
      }
      if resumable {
        started := true;
        return true;
      }
      return false;
    }

    method Start()
      modifies this
      ensures State() == old(State()).(started := true)
    {
      started := true;
    }
  }

  /** A named segment of a session. */
  class Segment {
    const session: SessionStore
    const name: string

    constructor (session: SessionStore, name: string)
      ensures this.session == session && this.name == name
    {
      this.session := session;
      this.name := name;
    }

    method Load()
      modifies session
      ensures session.State() == Loaded(old(session.State()), name)
    {
      if name !in session.data {
        session.data := session.data[name := []];
      }
      if name !in session.now {
        session.now := session.now[name := []];
      }
      if name !in session.next {
        session.next := session.next[name := []];
      }
    }

    method ResumeSession() returns (ok: bool)
      modifies session
      ensures (session.State(), ok) == Resumed(old(session.State()), name)
    {
      var resumed := session.started;
      if !resumed {
        resumed := session.Resume();
      }
      if resumed {
        Load();
        return true;
      }
      return false;
    }

    method ResumeOrStartSession()
      modifies session
      ensures session.State() == Ready(old(session.State()), name)
    {
      var ok := ResumeSession();
      if !ok {
        session.Start();
        Load();
      }
    }

    method Get(key: Key, alt: Value) returns (v: Value)
      modifies session
      ensures (session.State(), v) == GetOp(old(session.State()), name, key, alt)
    {
      var _ := ResumeSession();
      v := Read(session.data, name, key, alt);
    }

    method GetSegment() returns (r: Option<seq<Entry>>)
      modifies session
      ensures (session.State(), r) == GetSegmentOp(old(session.State()), name)
    {
      var _ := ResumeSession();
      r := if name in session.data then Some(session.data[name]) else None;
    }

    method Set(key: Key, val: Value)
      modifies session
      ensures session.State() == SetOp(old(session.State()), name, key, val)
    {
      ResumeOrStartSession();
      session.data := session.data[name := Put(session.data[name], key, val)];
    }

    method Add(val: Value)
      modifies session
      ensures session.State() == AddOp(old(session.State()), name, val)
    {
      ResumeOrStartSession();
      session.data := session.data[name := Append(session.data[name], val)];
    }

    method Clear()
      modifies session
      ensures session.State() == ClearOp(old(session.State()), name)
    {
      var ok := ResumeSession();
      if ok {
        session.data := session.data[name := []];
      }
    }

    method Remove(key: Option<Key>)
      modifies session
      ensures session.State() == RemoveOp(old(session.State()), name, key)
    {
      var ok := ResumeSession();
      if ok {
        if key.Some? && KeyTruthy(key.value) {
          if name in session.data && Lookup(session.data[name], key.value).Some? {
            session.data := session.data[name := Php.Remove(session.data[name], key.value)];
          }
        } else {
          session.data := session.data - {name};
        }
      }
    }

    method SetFlash(key: Key, val: Value)
      modifies session
      ensures session.State() == SetFlashOp(old(session.State()), name, key, val)
    {
      ResumeOrStartSession();
      session.next := session.next[name := Put(session.next[name], key, val)];
    }

    method AddFlash(val: Value)
      modifies session
      ensures session.State() == AddFlashOp(old(session.State()), name, val)
    {
      ResumeOrStartSession();
      session.next := session.next[name := Append(session.next[name], val)];
    }

    method GetFlash(key: Key, alt: Value) returns (v: Value)
      modifies session
      ensures (session.State(), v) == GetFlashOp(old(session.State()), name, key, alt)
    {
      var _ := ResumeSession();
      v := Read(session.now, name, key, alt);
    }

    method GetAllCurrentFlash(alt: Value) returns (v: Value)
      modifies session
      ensures (session.State(), v) == GetAllCurrentFlashOp(old(session.State()), name, alt)
    {
      var _ := ResumeSession();
      v := ReadAll(session.now, name, alt);
    }

    method ClearFlash()
      modifies session
      ensures session.State() == ClearFlashOp(old(session.State()), name)
    {
      var ok := ResumeSession();
      if ok {
        session.next := session.next[name := []];
      }
    }

    method GetFlashNext(key: Key, alt: Value) returns (v: Value)
      modifies session
      ensures (session.State(), v) == GetFlashNextOp(old(session.State()), name, key, alt)
    {
      var _ := ResumeSession();
      v := Read(session.next, name, key, alt);
    }

    method GetAllFlashNext(alt: Value) returns (v: Value)
      modifies session
      ensures (session.State(), v) == GetAllFlashNextOp(old(session.State()), name, alt)
    {
      var _ := ResumeSession();
      v := ReadAll(session.next, name, alt);
    }

    method SetFlashNow(key: Key, val: Value)
      modifies session
      ensures session.State() == SetFlashNowOp(old(session.State()), name, key, val)
    {
      ResumeOrStartSession();
      session.now := session.now[name := Put(session.now[name], key, val)];
      session.next := session.next[name := Put(session.next[name], key, val)];
    }

    method AddFlashNow(val: Value)
      modifies session
      ensures session.State() == AddFlashNowOp(old(session.State()), name, val)
    {
      ResumeOrStartSession();
      session.now := session.now[name := Append(session.now[name], val)];
      session.next := session.next[name := Append(session.next[name], val)];
    }

    method ClearFlashNow()
      modifies session
      ensures session.State() == ClearFlashNowOp(old(session.State()), name)
    {
      var ok := ResumeSession();
      if ok {
        session.now := session.now[name := []];
        session.next := session.next[name := []];
      }
    }

    method KeepFlash()
      modifies session
      ensures session.State() == KeepFlashOp(old(session.State()), name)
    {
      var ok := ResumeSession();
      if ok {
        session.next := session.next[name := Merge(session.next[name], session.now[name])];
      }
    }
  }
}
