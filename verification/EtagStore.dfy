/** The two-level version store of a cached model (vstutils/models/base.py).
    A shared cache maps the key of the table, the "postfix" key and one key per row,
    named through the current postfix, to version values.  Entries may vanish at any time. */
module EtagStore {
  import opened Common

  /** A version value.  uuid4 is modelled as a counter, so that a new value is one
      that was never drawn before. */
  type Uuid = nat

  type Pk = int

  /** The cache keys of one model. */
  datatype Key = TableKey | PostfixKey | RowKey(postfix: Uuid, pk: Pk)

  /** The etag cache, and the next version value to be drawn. */
  datatype Store = Store(entries: map<Key, Uuid>, next: Uuid)

  /** What a version is asked for: the table (pk is None), the reserved word
      "__postfix__", or one row. */
  datatype Subject = Table | Postfix | Row(pk: Pk)

  /** What is invalidated: everything (pk is None) or some rows; a row may be None. */
  datatype Target = All | Rows(pks: seq<Option<Pk>>)

  /** Cache.get_or_set(key, uuid4()): the default is drawn in any case. */
  function GetOrSet(s: Store, k: Key): (r: (Store, Uuid))
  {
    if k in s.entries then (Store(s.entries, s.next + 1), s.entries[k])
    else (Store(s.entries[k := s.next], s.next + 1), s.next)
  }

  /** The name under which a subject is stored; naming a row reads the postfix. */
  function KeyFor(s: Store, subject: Subject): (Store, Key)
  {
    match subject
    case Table => (s, TableKey)
    case Postfix => (s, PostfixKey)
    case Row(pk) =>
      var (s', p) := GetOrSet(s, PostfixKey);
      (s', RowKey(p, pk))
  }

  function Fetch(s: Store, subject: Subject): (Store, Uuid)
  {
    var (s', k) := KeyFor(s, subject);
    GetOrSet(s', k)
  }

  /** The keys of a list, as the dictionary built from it has them. */
  function Elements(keys: seq<Key>): set<Key>
  {
    set k | k in keys
  }

  /** The keys written for some rows under a given postfix. */
  function RowKeys(postfix: Uuid, pks: seq<Option<Pk>>): set<Key>
  {
    set i | 0 <= i < |pks| && pks[i].Some? :: RowKey(postfix, pks[i].value)
  }

  lemma RowKeysStep(postfix: Uuid, pks: seq<Option<Pk>>, i: nat)
    requires i < |pks|
    ensures RowKeys(postfix, pks[..i + 1]) ==
            RowKeys(postfix, pks[..i]) + (if pks[i].Some? then {RowKey(postfix, pks[i].value)} else {})
  {
    var before, after := pks[..i], pks[..i + 1];
    forall k | k in RowKeys(postfix, before) ensures k in RowKeys(postfix, after) {
      var j :| 0 <= j < |before| && before[j].Some? && k == RowKey(postfix, before[j].value);
      assert after[j] == before[j];
    }
    forall k | k in RowKeys(postfix, after)
      ensures k in RowKeys(postfix, before) || (pks[i].Some? && k == RowKey(postfix, pks[i].value))
    {
      var j :| 0 <= j < |after| && after[j].Some? && k == RowKey(postfix, after[j].value);
      if j < i { assert before[j] == after[j]; }
    }
    assert after[i] == pks[i];
  }

  function StoreMany(s: Store, keys: set<Key>, value: Uuid): Store
  {
    Store(map k | k in s.entries.Keys + keys :: if k in keys then value else s.entries[k], s.next)
  }

  function Renew(s: Store, target: Target): Store
  {
    var value := s.next;
    var s0 := Store(s.entries, s.next + 1);
    match target
    case All => StoreMany(s0, {TableKey, PostfixKey}, value)
    case Rows(pks) =>
      var (s1, p) := GetOrSet(s0, PostfixKey);
      StoreMany(s1, {TableKey} + RowKeys(p, pks), value)
  }

  /** Entries time out in the shared cache. */
  function Evict(s: Store, keys: set<Key>): Store
  {
    Store(s.entries - keys, s.next)
  }

  /** Everything stored, and every postfix named in a key, was drawn before. */
  ghost predicate Valid(s: Store)
  {
    && (forall k :: k in s.entries ==> s.entries[k] < s.next)
    && (forall k :: k in s.entries && k.RowKey? ==> k.postfix < s.next)
  }

  /** The version a read of the subject would find, if it would find one. */
  function Current(s: Store, subject: Subject): Option<Uuid>
  {
    match subject
    case Table => if TableKey in s.entries then Some(s.entries[TableKey]) else None
    case Postfix => if PostfixKey in s.entries then Some(s.entries[PostfixKey]) else None
    case Row(pk) =>
      if PostfixKey in s.entries && RowKey(s.entries[PostfixKey], pk) in s.entries
      then Some(s.entries[RowKey(s.entries[PostfixKey], pk)]) else None
  }

  /** Does invalidating the target invalidate the subject? */
  predicate Covers(target: Target, subject: Subject)
  {
    match subject
    case Table => true
    case Postfix => target.All?
    case Row(pk) => target.All? || Some(pk) in target.pks
  }

  /** A read answers the current version and makes it current when there was none;
      reading again gives the same answer. */
  lemma ReadIsStable(s: Store, subject: Subject)
    requires Valid(s)
    ensures var (s', v) := Fetch(s, subject);
            && Valid(s')
            && Current(s', subject) == Some(v)
            && Fetch(s', subject).1 == v
            && (Current(s, subject).Some? ==> v == Current(s, subject).value)
            && (Current(s, subject).None? ==> v >= s.next)
  {
  }

  /** Reading one subject changes the current version of another only from
      none to none: it never brings an old version back. */
  lemma ReadKeepsOthers(s: Store, read: Subject, subject: Subject)
    requires Valid(s)
    ensures var s' := Fetch(s, read).0;
            && s.next <= s'.next
            && (Current(s', subject) == Current(s, subject)
                || (Current(s, subject).None? && Current(s', subject).Some? && Current(s', subject).value >= s.next))
  {
  }

  /** An invalidation gives every covered subject a version never seen before;
      one that is not covered keeps its version as long as the postfix was still
      stored, and otherwise loses it. */
  lemma InvalidationIsExact(s: Store, target: Target, subject: Subject)
    requires Valid(s)
    ensures var s' := Renew(s, target);
            && Valid(s')
            && s.next < s'.next
            && (Covers(target, subject) ==> Current(s', subject).Some? ==> Current(s', subject).value >= s.next)
            && (!Covers(target, subject) && subject.Row? ==>
                  Current(s', subject) == if PostfixKey in s.entries then Current(s, subject) else None)
  {
    var s' := Renew(s, target);
    if target.Rows? {
      var p := GetOrSet(Store(s.entries, s.next + 1), PostfixKey).1;
      forall pk ensures RowKey(p, pk) in RowKeys(p, target.pks) <==> Some(pk) in target.pks {}
      if subject.Row? && Some(subject.pk) in target.pks {
        assert RowKey(p, subject.pk) in RowKeys(p, target.pks);
      }
    }
  }

  /** Losing entries never makes a version current; those lost are gone and the others stay. */
  lemma EvictionForgets(s: Store, keys: set<Key>, subject: Subject)
    requires Valid(s)
    ensures Valid(Evict(s, keys))
    ensures forall k :: k in keys ==> k !in Evict(s, keys).entries
    ensures forall k :: k in s.entries && k !in keys ==>
              k in Evict(s, keys).entries && Evict(s, keys).entries[k] == s.entries[k]
    ensures Current(Evict(s, keys), subject) in {None, Current(s, subject)}
  {
  }

  /** The cache object the model class talks to. */
  class EtagCache {
    var entries: map<Key, Uuid>
    var drawn: Uuid

    ghost function State(): Store
      reads this
    {
      Store(entries, drawn)
    }

    constructor ()
      ensures State() == Store(map[], 0)
    {
      entries := map[];
      drawn := 0;
    }

    method DrawUuid() returns (value: Uuid)
      modifies this`drawn
      ensures value == old(drawn) && drawn == old(drawn) + 1
    {
      value := drawn;
      drawn := drawn + 1;
    }

    method GetOrSet(key: Key, default: Uuid) returns (value: Uuid)
      modifies this`entries
      ensures value == if key in old(entries) then old(entries)[key] else default
      ensures entries == if key in old(entries) then old(entries) else old(entries)[key := default]
    {
      if key !in entries {
        entries := entries[key := default];
      }
      value := entries[key];
    }

    method ApiCacheName(subject: Subject, known: Option<Uuid>) returns (key: Key)
      modifies this
      ensures known.None? ==> (State(), key) == KeyFor(old(State()), subject)
      ensures known.Some? ==> State() == old(State())
      ensures known.Some? && subject.Row? ==> key == RowKey(known.value, subject.pk)
      ensures known.Some? && !subject.Row? ==> key == KeyFor(old(State()), subject).1
      decreases if subject.Row? then 2 else 0
    {
      match subject {
        case Table => key := TableKey;
        case Postfix => key := PostfixKey;
        case Row(pk) =>
          var p: Uuid;
          if known.Some? {
            p := known.value;
          } else {
            p := GetEtagValue(Postfix);
          }
          key := RowKey(p, pk);
      }
    }

    method GetEtagValue(subject: Subject) returns (value: Uuid)
      modifies this
      ensures (State(), value) == Fetch(old(State()), subject)
      decreases if subject.Row? then 3 else 1
    {
      var key := ApiCacheName(subject, None);
      var default := DrawUuid();
      value := GetOrSet(key, default);
    }

    method SetMany(keys: seq<Key>, value: Uuid)
      modifies this`entries
      ensures State() == StoreMany(old(State()), Elements(keys), value)
    {
      ghost var before := entries;
      for i := 0 to |keys|
        invariant entries.Keys == before.Keys + Elements(keys[..i])
        invariant forall k :: k in entries ==>
                    entries[k] == if k in Elements(keys[..i]) then value else before[k]
      {
        assert keys[..i + 1] == keys[..i] + [keys[i]];
        entries := entries[keys[i] := value];
      }
      assert keys[..|keys|] == keys;
    }

    /** The keys of the rows that are not None, under a postfix that is known. */
    method AddRowKeys(start: seq<Key>, postfix: Uuid, pks: seq<Option<Pk>>) returns (keys: seq<Key>)
      modifies this
      ensures State() == old(State())
      ensures Elements(keys) == Elements(start) + RowKeys(postfix, pks)
    {
      keys := start;
      for i := 0 to |pks|
        invariant State() == old(State())
        invariant Elements(keys) == Elements(start) + RowKeys(postfix, pks[..i])
      {
        RowKeysStep(postfix, pks, i);
        if pks[i].Some? {
          var key := ApiCacheName(Row(pks[i].value), Some(postfix));
          assert Elements(keys + [key]) == Elements(keys) + {key};
          keys := keys + [key];
        }
      }
      assert pks[..|pks|] == pks;
    }

    method SetEtagValue(target: Target) returns (value: Uuid)
      modifies this
      ensures State() == Renew(old(State()), target)
      ensures value == old(drawn)
    {
      value := DrawUuid();
      ghost var drawnState := State();
      var key := ApiCacheName(Table, None);
      var keys := [key];
      match target {
        case All =>
          key := ApiCacheName(Postfix, None);
          keys := keys + [key];
          assert Elements(keys) == {TableKey, PostfixKey};
        case Rows(pks) =>
          var postfix := GetEtagValue(Postfix);
          assert (State(), postfix) == Fetch(drawnState, Postfix);
          keys := AddRowKeys(keys, postfix, pks);
          assert Elements([TableKey]) == {TableKey};
      }
      SetMany(keys, value);
    }
  }
}
