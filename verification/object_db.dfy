/**
 * The host's object/state store as the adapter sees it: a map of object
 * nodes (written create-if-absent, `setObjectNotExistsAsync`) and a map of
 * states (each write overwrites the value and marks it acknowledged,
 * `setStateAsync(id, {val, ack: true})`). Ids are relative to the adapter's
 * namespace.
 *
 * What an operation of the adapter does to the store is specified as a list
 * of `Op`s and their meaning `Apply`; the lemmas below are the generic facts
 * (composition, framing, create-before-write) used by every mirroring
 * component.
 */
module ObjectDb {
  import opened Wrappers

  /** A JavaScript value as it is written into a state. */
  datatype Value = Undefined | Null | Bool(b: bool) | Num(n: real) | Str(s: string)

  /** JavaScript truthiness (NaN is not modelled). */
  predicate Truthy(v: Value)
  {
    match v
    case Undefined => false
    case Null => false
    case Bool(b) => b
    case Num(n) => n != 0.0
    case Str(s) => s != ""
  }

  datatype Kind = Channel | StateNode

  datatype StateVal = StateVal(val: Value, ack: bool)

  datatype Db = Db(objects: map<string, Kind>, states: map<string, StateVal>)

  /** One store call: create-if-absent, acknowledged write, or null every state under a prefix. */
  datatype Op = Ensure(id: string, kind: Kind) | Write(id: string, val: Value) | NullUnder(prefix: string)

  function Step(db: Db, op: Op): Db
  {
    match op
    case Ensure(id, k) => if id in db.objects then db else db.(objects := db.objects[id := k])
    case Write(id, v) => db.(states := db.states[id := StateVal(v, true)])
    case NullUnder(p) => db.(states := NullOut(db.states, p))
  }

  /** Every state whose id starts with `p` set to null (acknowledged); nothing added or removed. */
  function NullOut(states: map<string, StateVal>, p: string): (r: map<string, StateVal>)
    ensures r.Keys == states.Keys
    ensures forall k :: k in r ==> r[k] == if p <= k then StateVal(Null, true) else states[k]
  {
    map k | k in states :: if p <= k then StateVal(Null, true) else states[k]
  }

  /** The store after the ops, applied in order. */
  function Apply(db: Db, ops: seq<Op>): Db
  {
    if ops == [] then db else Step(Apply(db, ops[..|ops| - 1]), ops[|ops| - 1])
  }

  // ---------------------------------------------------------------------------
  // Composition
  // ---------------------------------------------------------------------------

  lemma {:induction false} ApplySnoc(db: Db, ops: seq<Op>, op: Op)
    ensures Apply(db, ops + [op]) == Step(Apply(db, ops), op)
  {
    assert (ops + [op])[..|ops|] == ops;
  }

  /** Applying two lists one after the other is applying their concatenation. */
  lemma {:induction false} ApplyAppend(db: Db, a: seq<Op>, b: seq<Op>)
    ensures Apply(db, a + b) == Apply(Apply(db, a), b)
    decreases |b|
  {
    if b == [] {
      assert a + b == a;
    } else {
      var init := b[..|b| - 1];
      ApplyAppend(db, a, init);
      assert (a + b)[..|a + b| - 1] == a + init;
    }
  }

  // ---------------------------------------------------------------------------
  // Objects are never overwritten
  // ---------------------------------------------------------------------------

  /** Create-if-absent: every existing node survives with its kind. */
  lemma {:induction false} ObjectsKept(db: Db, ops: seq<Op>)
    ensures db.objects.Keys <= Apply(db, ops).objects.Keys
    ensures forall k :: k in db.objects ==> Apply(db, ops).objects[k] == db.objects[k]
  {
    if ops != [] {
      ObjectsKept(db, ops[..|ops| - 1]);
    }
  }

  /** A node the ops ensure is present afterwards. */
  lemma {:induction false} EnsuredPresent(db: Db, ops: seq<Op>, i: nat)
    requires i < |ops| && ops[i].Ensure?
    ensures ops[i].id in Apply(db, ops).objects
    decreases |ops|
  {
    var init := ops[..|ops| - 1];
    if i < |ops| - 1 {
      assert init[i] == ops[i];
      EnsuredPresent(db, init, i);
      ObjectsKept(Apply(db, init), [ops[|ops| - 1]]);
      assert [ops[|ops| - 1]][..0] == [];
    }
  }

  // ---------------------------------------------------------------------------
  // Framing
  // ---------------------------------------------------------------------------

  /** Does `op` change the state with id `id`? */
  predicate WritesState(op: Op, id: string)
  {
    match op
    case Ensure(_, _) => false
    case Write(k, _) => k == id
    case NullUnder(p) => p <= id
  }

  /** Every state the op may change lies under `p`. */
  predicate TargetUnder(op: Op, p: string)
  {
    match op
    case Ensure(_, _) => true
    case Write(k, _) => p <= k
    case NullUnder(q) => p <= q
  }

  predicate OpsUnder(ops: seq<Op>, p: string)
  {
    forall op :: op in ops ==> TargetUnder(op, p)
  }

  predicate Untouched(ops: seq<Op>, id: string)
  {
    forall op :: op in ops ==> !WritesState(op, id)
  }

  lemma PrefixTransitive(a: string, b: string, c: string)
    requires a <= b && b <= c
    ensures a <= c
  {
    assert c[..|a|] == b[..|a|];
  }

  /** A state id outside the prefix the ops work under is not touched by them. */
  lemma UntouchedOutside(ops: seq<Op>, p: string, id: string)
    requires OpsUnder(ops, p) && !(p <= id)
    ensures Untouched(ops, id)
  {
    forall op | op in ops ensures !WritesState(op, id) {
      assert TargetUnder(op, p);
      if op.NullUnder? && op.prefix <= id {
        PrefixTransitive(p, op.prefix, id);
      }
    }
  }

  /** A state no op writes keeps its presence and its value. */
  lemma {:induction false} UntouchedKept(db: Db, ops: seq<Op>, id: string)
    requires Untouched(ops, id)
    ensures (id in Apply(db, ops).states) == (id in db.states)
    ensures id in db.states ==> Apply(db, ops).states[id] == db.states[id]
  {
    if ops != [] {
      var init := ops[..|ops| - 1];
      assert ops[|ops| - 1] in ops;
      assert Untouched(init, id) by {
        forall op | op in init ensures !WritesState(op, id) {
          var j :| 0 <= j < |init| && init[j] == op;
          assert ops[j] == op;
        }
      }
      UntouchedKept(db, init, id);
    }
  }

  /** The last write to a state decides its value when nothing after it touches that state. */
  lemma LastWriteWins(db: Db, a: seq<Op>, id: string, v: Value, b: seq<Op>)
    requires Untouched(b, id)
    ensures id in Apply(db, a + [Write(id, v)] + b).states
    ensures Apply(db, a + [Write(id, v)] + b).states[id] == StateVal(v, true)
  {
    ApplyAppend(db, a + [Write(id, v)], b);
    ApplySnoc(db, a, Write(id, v));
    UntouchedKept(Apply(db, a + [Write(id, v)]), b, id);
  }

  /** Ops under `p`, state by state: outside `p` the store's states are exactly as before. */
  lemma StatesOutsideKept(db: Db, ops: seq<Op>, p: string)
    requires OpsUnder(ops, p)
    ensures forall id :: !(p <= id) ==> ((id in Apply(db, ops).states) == (id in db.states))
    ensures forall id :: !(p <= id) && id in db.states ==> Apply(db, ops).states[id] == db.states[id]
  {
    forall id | !(p <= id)
      ensures (id in Apply(db, ops).states) == (id in db.states)
      ensures id in db.states ==> Apply(db, ops).states[id] == db.states[id]
    {
      UntouchedOutside(ops, p, id);
      UntouchedKept(db, ops, id);
    }
  }

  lemma OpsUnderAppend(a: seq<Op>, b: seq<Op>, p: string)
    requires OpsUnder(a, p) && OpsUnder(b, p)
    ensures OpsUnder(a + b, p)
  {
  }

  lemma UntouchedAppend(a: seq<Op>, b: seq<Op>, id: string)
    requires Untouched(a, id) && Untouched(b, id)
    ensures Untouched(a + b, id)
  {
  }

  // ---------------------------------------------------------------------------
  // Every state has its node (create before write)
  // ---------------------------------------------------------------------------

  /** The store invariant the adapter keeps: no state without its object node. */
  predicate Consistent(db: Db)
  {
    db.states.Keys <= db.objects.Keys
  }

  /** Each write is immediately preceded by the creation of its node. */
  predicate CreatedBeforeWritten(ops: seq<Op>)
  {
    forall i :: 0 <= i < |ops| && ops[i].Write? ==> 0 < i && ops[i - 1] == Ensure(ops[i].id, StateNode)
  }

  lemma CreatedBeforeWrittenAppend(a: seq<Op>, b: seq<Op>)
    requires CreatedBeforeWritten(a) && CreatedBeforeWritten(b)
    ensures CreatedBeforeWritten(a + b)
  {
    forall i | 0 <= i < |a + b| && (a + b)[i].Write?
      ensures 0 < i && (a + b)[i - 1] == Ensure((a + b)[i].id, StateNode)
    {
      if i < |a| {
        assert (a + b)[i] == a[i];
        assert (a + b)[i - 1] == a[i - 1];
      } else {
        assert (a + b)[i] == b[i - |a|];
        assert (a + b)[i - 1] == b[i - |a| - 1];
      }
    }
  }

  /** Ops that create before they write keep every state backed by a node. */
  lemma {:induction false} ConsistentKept(db: Db, ops: seq<Op>)
    requires Consistent(db) && CreatedBeforeWritten(ops)
    ensures Consistent(Apply(db, ops))
    decreases |ops|
  {
    if ops != [] {
      var n := |ops|;
      var init := ops[..n - 1];
      assert CreatedBeforeWritten(init) by {
        forall i | 0 <= i < |init| && init[i].Write?
          ensures 0 < i && init[i - 1] == Ensure(init[i].id, StateNode)
        {
          assert init[i] == ops[i];
        }
      }
      ConsistentKept(db, init);
      match ops[n - 1]
      case Write(id, v) =>
        assert init[n - 2] == Ensure(id, StateNode);
        EnsuredPresent(db, init, n - 2);
      case Ensure(_, _) =>
      case NullUnder(_) =>
    }
  }

  // ---------------------------------------------------------------------------
  // Mirroring named fields under a node
  // ---------------------------------------------------------------------------

  /**
   * One state under a node: its object is always created; its value is
   * written unconditionally, or, when `guarded`, only if it is truthy
   * (`if (x) setStateAsync(...)`).
   */
  datatype Field = Field(name: string, val: Value, guarded: bool)

  function Set(name: string, v: Value): Field
  {
    Field(name, v, false)
  }

  function SetIfTruthy(name: string, v: Value): Field
  {
    Field(name, v, true)
  }

  predicate Written(f: Field)
  {
    !f.guarded || Truthy(f.val)
  }

  /** `setObjectNotExistsAsync(path.name)`, then `setStateAsync(path.name, v)` unless a guard skips it. */
  function FieldOps(path: string, f: Field): seq<Op>
  {
    [Ensure(path + "." + f.name, StateNode)] + if Written(f) then [Write(path + "." + f.name, f.val)] else []
  }

  /** The fields mirrored one after the other, in list order. */
  function FieldsOps(path: string, fs: seq<Field>): seq<Op>
  {
    if fs == [] then [] else FieldsOps(path, fs[..|fs| - 1]) + FieldOps(path, fs[|fs| - 1])
  }

  predicate DistinctNames(fs: seq<Field>)
  {
    forall i, j :: 0 <= i < j < |fs| ==> fs[i].name != fs[j].name
  }

  /** Two ids under the same node are equal only when their names are. */
  lemma SameNodeNames(path: string, a: string, b: string)
    ensures (path + "." + a == path + "." + b) == (a == b)
  {
    if path + "." + a == path + "." + b {
      assert (path + "." + a)[|path| + 1..] == a;
      assert (path + "." + b)[|path| + 1..] == b;
    }
  }

  /** A state that is none of the mirrored fields is not touched. */
  lemma {:induction false} FieldsOpsUntouched(path: string, fs: seq<Field>, id: string)
    requires forall k :: 0 <= k < |fs| ==> path + "." + fs[k].name != id
    ensures Untouched(FieldsOps(path, fs), id)
    decreases |fs|
  {
    if fs != [] {
      var init := fs[..|fs| - 1];
      forall k | 0 <= k < |init| ensures path + "." + init[k].name != id {
        assert init[k] == fs[k];
      }
      FieldsOpsUntouched(path, init, id);
      UntouchedAppend(FieldsOps(path, init), FieldOps(path, fs[|fs| - 1]), id);
    }
  }

  /**
   * After mirroring distinctly named fields, a written field's state holds
   * its value, and a field its guard skipped keeps the state it had before.
   */
  lemma {:induction false} FieldsOpsLand(db: Db, path: string, fs: seq<Field>, k: nat)
    requires DistinctNames(fs) && k < |fs|
    ensures Written(fs[k]) ==>
      path + "." + fs[k].name in Apply(db, FieldsOps(path, fs)).states
      && Apply(db, FieldsOps(path, fs)).states[path + "." + fs[k].name] == StateVal(fs[k].val, true)
    ensures !Written(fs[k]) ==>
      (path + "." + fs[k].name in Apply(db, FieldsOps(path, fs)).states) == (path + "." + fs[k].name in db.states)
    ensures !Written(fs[k]) && path + "." + fs[k].name in db.states ==>
      Apply(db, FieldsOps(path, fs)).states[path + "." + fs[k].name] == db.states[path + "." + fs[k].name]
    decreases |fs|
  {
    var n := |fs|;
    var init := fs[..n - 1];
    var last := FieldOps(path, fs[n - 1]);
    var id := path + "." + fs[k].name;
    if k == n - 1 {
      forall j | 0 <= j < |init| ensures path + "." + init[j].name != id {
        assert init[j] == fs[j];
        SameNodeNames(path, init[j].name, fs[k].name);
      }
      FieldsOpsUntouched(path, init, id);
      if Written(fs[k]) {
        assert FieldsOps(path, fs) == (FieldsOps(path, init) + [Ensure(id, StateNode)]) + [Write(id, fs[k].val)] + [];
        LastWriteWins(db, FieldsOps(path, init) + [Ensure(id, StateNode)], id, fs[k].val, []);
      } else {
        assert Untouched(last, id);
        UntouchedAppend(FieldsOps(path, init), last, id);
        UntouchedKept(db, FieldsOps(path, fs), id);
      }
    } else {
      assert init[k] == fs[k];
      FieldsOpsLand(db, path, init, k);
      SameNodeNames(path, fs[n - 1].name, fs[k].name);
      assert Untouched(last, id);
      ApplyAppend(db, FieldsOps(path, init), last);
      UntouchedKept(Apply(db, FieldsOps(path, init)), last, id);
    }
  }

  /** Mirrored fields only change states under `path.`. */
  lemma {:induction false} FieldsOpsUnder(path: string, fs: seq<Field>)
    ensures OpsUnder(FieldsOps(path, fs), path + ".")
    decreases |fs|
  {
    if fs != [] {
      FieldsOpsUnder(path, fs[..|fs| - 1]);
      var name := fs[|fs| - 1].name;
      assert path + "." <= path + "." + name;
      OpsUnderAppend(FieldsOps(path, fs[..|fs| - 1]), FieldOps(path, fs[|fs| - 1]), path + ".");
    }
  }

  /** Mirrored fields create every node before writing its state. */
  lemma {:induction false} FieldsOpsCreate(path: string, fs: seq<Field>)
    ensures CreatedBeforeWritten(FieldsOps(path, fs))
    decreases |fs|
  {
    if fs != [] {
      FieldsOpsCreate(path, fs[..|fs| - 1]);
      CreatedBeforeWrittenAppend(FieldsOps(path, fs[..|fs| - 1]), FieldOps(path, fs[|fs| - 1]));
    }
  }

  /** Mirroring two lists one after the other is mirroring their concatenation. */
  lemma {:induction false} FieldsOpsAppend(path: string, a: seq<Field>, b: seq<Field>)
    ensures FieldsOps(path, a + b) == FieldsOps(path, a) + FieldsOps(path, b)
    decreases |b|
  {
    if b == [] {
      assert a + b == a;
    } else {
      var init := b[..|b| - 1];
      FieldsOpsAppend(path, a, init);
      assert (a + b)[..|a + b| - 1] == a + init;
    }
  }

  /** Every field name starts with `p`. */
  predicate AllPrefixed(fs: seq<Field>, p: string)
  {
    forall k :: 0 <= k < |fs| ==> p <= fs[k].name
  }

  /** No name of `a` is a name of `b`. */
  predicate NamesDisjoint(a: seq<Field>, b: seq<Field>)
  {
    forall i, j :: 0 <= i < |a| && 0 <= j < |b| ==> a[i].name != b[j].name
  }

  lemma DistinctAppend(a: seq<Field>, b: seq<Field>)
    requires DistinctNames(a) && DistinctNames(b) && NamesDisjoint(a, b)
    ensures DistinctNames(a + b)
  {
    forall i, j | 0 <= i < j < |a + b| ensures (a + b)[i].name != (a + b)[j].name {
      if j < |a| {
        assert (a + b)[i] == a[i] && (a + b)[j] == a[j];
      } else if i < |a| {
        assert (a + b)[i] == a[i] && (a + b)[j] == b[j - |a|];
      } else {
        assert (a + b)[i] == b[i - |a|] && (a + b)[j] == b[j - |a|];
      }
    }
  }

  /** Names with different prefixes that disagree at some position never meet. */
  lemma PrefixedDisjoint(a: seq<Field>, b: seq<Field>, p: string, q: string, i: nat)
    requires AllPrefixed(a, p) && AllPrefixed(b, q) && i < |p| && i < |q| && p[i] != q[i]
    ensures NamesDisjoint(a, b)
  {
    forall x, y | 0 <= x < |a| && 0 <= y < |b| ensures a[x].name != b[y].name {
      assert a[x].name[i] == p[i];
      assert b[y].name[i] == q[i];
    }
  }

  /** Names none of which starts with `q` never meet names that all do. */
  lemma UnprefixedDisjoint(a: seq<Field>, b: seq<Field>, q: string)
    requires AllPrefixed(b, q) && forall k :: 0 <= k < |a| ==> !(q <= a[k].name)
    ensures NamesDisjoint(a, b)
  {
  }

  /** A channel node at `path` followed by its mirrored fields. */
  function NodeOps(path: string, fs: seq<Field>): seq<Op>
  {
    [Ensure(path, Channel)] + FieldsOps(path, fs)
  }

  /** A node with its fields: every written field lands, only states under `path.` change, nodes come first. */
  lemma NodeOpsSpec(db: Db, path: string, fs: seq<Field>)
    requires DistinctNames(fs)
    ensures forall k :: 0 <= k < |fs| && Written(fs[k]) ==>
      (path + "." + fs[k].name in Apply(db, NodeOps(path, fs)).states
       && Apply(db, NodeOps(path, fs)).states[path + "." + fs[k].name] == StateVal(fs[k].val, true))
    ensures path in Apply(db, NodeOps(path, fs)).objects
    ensures OpsUnder(NodeOps(path, fs), path + ".")
    ensures CreatedBeforeWritten(NodeOps(path, fs))
  {
    var head := [Ensure(path, Channel)];
    ApplyAppend(db, head, FieldsOps(path, fs));
    forall k | 0 <= k < |fs| && Written(fs[k])
      ensures path + "." + fs[k].name in Apply(db, NodeOps(path, fs)).states
      ensures Apply(db, NodeOps(path, fs)).states[path + "." + fs[k].name] == StateVal(fs[k].val, true)
    {
      FieldsOpsLand(Apply(db, head), path, fs, k);
    }
    EnsuredPresent(db, NodeOps(path, fs), 0);
    NodeOpsFrame(path, fs);
  }

  /** A node with its fields changes only states under `path.`, and creates each state before writing it. */
  lemma NodeOpsFrame(path: string, fs: seq<Field>)
    ensures OpsUnder(NodeOps(path, fs), path + ".")
    ensures CreatedBeforeWritten(NodeOps(path, fs))
  {
    var head := [Ensure(path, Channel)];
    FieldsOpsUnder(path, fs);
    FieldsOpsCreate(path, fs);
    assert CreatedBeforeWritten(head);
    CreatedBeforeWrittenAppend(head, FieldsOps(path, fs));
    OpsUnderAppend(head, FieldsOps(path, fs), path + ".");
  }

  /** Ops under a longer prefix are under every shorter prefix of it. */
  lemma OpsUnderWiden(ops: seq<Op>, p: string, q: string)
    requires OpsUnder(ops, q) && p <= q
    ensures OpsUnder(ops, p)
  {
    forall op | op in ops ensures TargetUnder(op, p) {
      assert TargetUnder(op, q);
      match op
      case Ensure(_, _) =>
      case Write(k, _) => PrefixTransitive(p, q, k);
      case NullUnder(k) => PrefixTransitive(p, q, k);
    }
  }

  // ---------------------------------------------------------------------------
  // The store as the adapter calls it
  // ---------------------------------------------------------------------------

  class Store {
    var objects: map<string, Kind>
    var states: map<string, StateVal>

    function Snapshot(): Db
      reads this
    {
      Db(objects, states)
    }

    constructor (db: Db)
      ensures Snapshot() == db
    {
      objects := db.objects;
      states := db.states;
    }

    /** `setObjectNotExistsAsync(id, {type: kind, ...})`. */
    method SetObjectNotExists(id: string, kind: Kind)
      modifies this
      ensures Snapshot() == Step(old(Snapshot()), Ensure(id, kind))
    {
      if id !in objects {
        objects := objects[id := kind];
      }
    }

    /** `setStateAsync(id, {val: v, ack: true})`. */
    method SetState(id: string, v: Value)
      modifies this
      ensures Snapshot() == Step(old(Snapshot()), Write(id, v))
    {
      states := states[id := StateVal(v, true)];
    }

    /** `getStateAsync(id)`. */
    function GetState(id: string): (r: Option<StateVal>)
      reads this
      ensures r.Some? <==> id in states
      ensures r.Some? ==> r.value == states[id]
    {
      if id in states then Some(states[id]) else None
    }

    /** The ids `getStatesAsync(prefix + "*")` returns. */
    function StatesUnder(prefix: string): (ids: set<string>)
      reads this
      ensures forall k :: k in ids <==> k in states && prefix <= k
    {
      set k | k in states && prefix <= k
    }
  }
}
