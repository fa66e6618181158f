/**
 The flattener (`flatten_data` in function_app.py): a depth-first walk over
 a decoded record that stores every scalar leaf in a single-level dict under
 a key built from the dict keys and list indices on the way to it, then adds
 the shop name.

 The Python code mutates one `out` dict from inside a recursive closure. The
 model states the walk as the sequence of writes it performs (`Writes`), the
 dict those writes leave behind (`Apply`), and proves the imperative
 `Flattener.Flatten`, which does the writes one at a time, equal to that.
 `Leaves` is an independent description by paths, tied to `Writes` by
 `WritesFollowLeaves`.
 */
module Flatten {
  import opened PyJson

  /** A flattened record: synthetic key to value. */
  type FlatRecord = map<string, Json>

  /** One assignment `out[key] = value`. */
  type Write = (string, Json)

  /** `name[:-1]`: the name without its last character ('' stays ''). */
  function DropLast(s: string): (r: string)
    ensures s != [] ==> r + [s[|s| - 1]] == s
    ensures s == [] ==> r == []
  {
    if s == [] then [] else s[..|s| - 1]
  }

  /** The concatenation of a sequence of sequences. */
  function Concat<T>(ss: seq<seq<T>>): (r: seq<T>)
    decreases |ss|
  {
    if ss == [] then [] else Concat(ss[..|ss| - 1]) + ss[|ss| - 1]
  }

  /** The writes `flatten(x, name)` performs on `out`, in order: each dict
      value under `name + key + '_'`, each list element under
      `name + str(i) + '_'`, and a leaf under `name[:-1]`. */
  function Writes(x: Json, name: string): seq<Write>
    decreases x
  {
    match x
    case JObj(fields) =>
      Concat(seq(|fields|, j requires 0 <= j < |fields| =>
        Writes(fields[j].1, name + fields[j].0 + "_")))
    case JArr(items) =>
      Concat(seq(|items|, j requires 0 <= j < |items| =>
        Writes(items[j], name + NatToString(j) + "_")))
    case _ => [(DropLast(name), x)]
  }

  /** The dict that results from performing the writes `ws` on `m`, in order. */
  function Apply(m: FlatRecord, ws: seq<Write>): FlatRecord
    decreases |ws|
  {
    if ws == [] then m else Apply(m[ws[0].0 := ws[0].1], ws[1..])
  }

  /** `flatten_data(y, shop_name)`: everything `flatten(y)` writes into an
      empty dict, then `out['shop_name'] = shop_name`. */
  function FlattenRecord(y: Json, shopName: string): (r: FlatRecord)
    ensures "shop_name" in r && r["shop_name"] == JStr(shopName)
  {
    Apply(map[], Writes(y, ""))["shop_name" := JStr(shopName)]
  }

  /** The state of one `flatten_data` call: the `out` dict that the inner
      `flatten` closure writes into. */
  class Flattener {
    var out: FlatRecord

    constructor ()
      ensures out == map[]
    {
      out := map[];
    }

    /** `flatten(x, name)`: performs exactly the writes `Writes(x, name)` on
        `out`, in order. */
    method Flatten(x: Json, name: string)
      modifies this
      ensures out == Apply(old(out), Writes(x, name))
      decreases x
    {
      match x {
        case JObj(fields) =>
          ghost var parts := seq(|fields|, j requires 0 <= j < |fields| =>
            Writes(fields[j].1, name + fields[j].0 + "_"));
          var k := 0;
          while k < |fields|
            invariant 0 <= k <= |fields|
            invariant out == Apply(old(out), Concat(parts[..k]))
          {
            Flatten(fields[k].1, name + fields[k].0 + "_");
            ApplyPrefixStep(old(out), parts, k);
            k := k + 1;
          }
          assert parts[..k] == parts;
        case JArr(items) =>
          ghost var parts := seq(|items|, j requires 0 <= j < |items| =>
            Writes(items[j], name + NatToString(j) + "_"));
          var i := 0;
          while i < |items|
            invariant 0 <= i <= |items|
            invariant out == Apply(old(out), Concat(parts[..i]))
          {
            Flatten(items[i], name + NatToString(i) + "_");
            ApplyPrefixStep(old(out), parts, i);
            i := i + 1;
          }
          assert parts[..i] == parts;
        case _ =>
          out := out[DropLast(name) := x];
      }
    }
  }

  /** `flatten_data(y, shop_name)`, run step by step: it agrees with
      `FlattenRecord`. */
  method FlattenData(y: Json, shopName: string) returns (out: FlatRecord)
    ensures out == FlattenRecord(y, shopName)
  {
    var f := new Flattener();
    f.Flatten(y, "");
    out := f.out["shop_name" := JStr(shopName)];
  }

  /** Performing two runs of writes one after the other. */
  lemma {:induction false} ApplyConcat(m: FlatRecord, a: seq<Write>, b: seq<Write>)
    ensures Apply(m, a + b) == Apply(Apply(m, a), b)
    decreases |a|
  {
    if a == [] {
      assert a + b == b;
    } else {
      assert (a + b)[1..] == a[1..] + b;
      ApplyConcat(m[a[0].0 := a[0].1], a[1..], b);
    }
  }

  /** One more part of a walk: its writes follow those of the parts before. */
  lemma ApplyPrefixStep(m: FlatRecord, parts: seq<seq<Write>>, k: nat)
    requires k < |parts|
    ensures Apply(m, Concat(parts[..k + 1])) == Apply(Apply(m, Concat(parts[..k])), parts[k])
  {
    assert parts[..k + 1][..k] == parts[..k];
    ApplyConcat(m, Concat(parts[..k]), parts[k]);
  }

  /** The keys written by a run of writes. */
  function WrittenKeys(ws: seq<Write>): set<string> {
    set i | 0 <= i < |ws| :: ws[i].0
  }

  /** After the writes, the dict holds the keys it had and the keys written,
      and no other. */
  lemma {:induction false} ApplyKeys(m: FlatRecord, ws: seq<Write>)
    ensures Apply(m, ws).Keys == m.Keys + WrittenKeys(ws)
    decreases |ws|
  {
    if ws != [] {
      ApplyKeys(m[ws[0].0 := ws[0].1], ws[1..]);
      assert WrittenKeys(ws) == {ws[0].0} + WrittenKeys(ws[1..]) by {
        forall k | k in WrittenKeys(ws) ensures k in {ws[0].0} + WrittenKeys(ws[1..]) {
          var i :| 0 <= i < |ws| && ws[i].0 == k;
          if i > 0 { assert ws[1..][i - 1].0 == k; }
        }
        forall k | k in WrittenKeys(ws[1..]) ensures k in WrittenKeys(ws) {
          var i :| 0 <= i < |ws[1..]| && ws[1..][i].0 == k;
          assert ws[i + 1].0 == k;
        }
      }
    }
  }

  /** The last write to a key decides its value: a later write overwrites
      an earlier one. */
  lemma {:induction false} ApplyLastWins(m: FlatRecord, ws: seq<Write>, i: nat)
    requires i < |ws|
    requires forall j :: i < j < |ws| ==> ws[j].0 != ws[i].0
    ensures ws[i].0 in Apply(m, ws) && Apply(m, ws)[ws[i].0] == ws[i].1
    decreases |ws|
  {
    if i == 0 {
      ApplyKeeps(m[ws[0].0 := ws[0].1], ws[1..], ws[0].0);
    } else {
      assert forall j :: i - 1 < j < |ws[1..]| ==> ws[1..][j].0 != ws[1..][i - 1].0 by {
        forall j | i - 1 < j < |ws[1..]| ensures ws[1..][j].0 != ws[1..][i - 1].0 {
          assert ws[1..][j] == ws[j + 1];
        }
      }
      ApplyLastWins(m[ws[0].0 := ws[0].1], ws[1..], i - 1);
    }
  }

  /** A key that no write touches keeps its value. */
  lemma {:induction false} ApplyKeeps(m: FlatRecord, ws: seq<Write>, k: string)
    requires k in m
    requires forall j :: 0 <= j < |ws| ==> ws[j].0 != k
    ensures k in Apply(m, ws) && Apply(m, ws)[k] == m[k]
    decreases |ws|
  {
    if ws != [] {
      assert forall j :: 0 <= j < |ws[1..]| ==> ws[1..][j].0 != k by {
        forall j | 0 <= j < |ws[1..]| ensures ws[1..][j].0 != k {
          assert ws[1..][j] == ws[j + 1];
        }
      }
      ApplyKeeps(m[ws[0].0 := ws[0].1], ws[1..], k);
    }
  }

  /** Every value in the resulting dict was either there before or is the
      value of some write. */
  lemma {:induction false} ApplyValueOrigin(m: FlatRecord, ws: seq<Write>, k: string)
    requires k in Apply(m, ws)
    ensures (k in m && Apply(m, ws)[k] == m[k]) ||
            exists i :: 0 <= i < |ws| && ws[i] == (k, Apply(m, ws)[k])
    decreases |ws|
  {
    if ws != [] {
      var m' := m[ws[0].0 := ws[0].1];
      ApplyValueOrigin(m', ws[1..], k);
      if exists i :: 0 <= i < |ws[1..]| && ws[1..][i] == (k, Apply(m', ws[1..])[k]) {
        var i :| 0 <= i < |ws[1..]| && ws[1..][i] == (k, Apply(m', ws[1..])[k]);
        assert ws[i + 1] == (k, Apply(m, ws)[k]);
      } else if k == ws[0].0 {
        assert ws[0] == (k, Apply(m, ws)[k]);
      }
    }
  }

  /** One step on the way from the root to a leaf. */
  datatype Segment = Key(key: string) | Index(index: nat)

  /** A scalar reached from the root by a path. */
  datatype Leaf = Leaf(path: seq<Segment>, value: Json)

  /** The text a step contributes to a name: the key or the decimal index,
      followed by '_'. */
  function SegmentText(seg: Segment): string {
    match seg
    case Key(k) => k + "_"
    case Index(i) => NatToString(i) + "_"
  }

  /** The name a path builds: each step's text, in order. */
  function Render(path: seq<Segment>): string {
    if path == [] then "" else SegmentText(path[0]) + Render(path[1..])
  }

  /** The key a leaf at `path` ends up under: the rendered path with its one
      trailing '_' removed. */
  function KeyOf(path: seq<Segment>): string {
    DropLast(Render(path))
  }

  /** The leaves of a subtree, seen from one step above it. */
  function Under(seg: Segment, ls: seq<Leaf>): seq<Leaf> {
    seq(|ls|, i requires 0 <= i < |ls| => Leaf([seg] + ls[i].path, ls[i].value))
  }

  /** Every scalar (or null) of `x` with the path to it, in depth-first
      order: dict pairs in insertion order, list elements by index. */
  function Leaves(x: Json): seq<Leaf>
    decreases x
  {
    match x
    case JObj(fields) =>
      Concat(seq(|fields|, j requires 0 <= j < |fields| =>
        Under(Key(fields[j].0), Leaves(fields[j].1))))
    case JArr(items) =>
      Concat(seq(|items|, j requires 0 <= j < |items| =>
        Under(Index(j), Leaves(items[j]))))
    case _ => [Leaf([], x)]
  }

  /** The write that stores a leaf under `name` followed by its path. */
  function Entry(name: string, l: Leaf): Write {
    (DropLast(name + Render(l.path)), l.value)
  }

  /** The writes that storing each leaf under `name` followed by its path
      would perform. */
  function Keyed(name: string, ls: seq<Leaf>): seq<Write> {
    seq(|ls|, i requires 0 <= i < |ls| => Entry(name, ls[i]))
  }

  lemma KeyedAppend(name: string, a: seq<Leaf>, b: seq<Leaf>)
    ensures Keyed(name, a + b) == Keyed(name, a) + Keyed(name, b)
  {
    var l := Keyed(name, a + b);
    var r := Keyed(name, a) + Keyed(name, b);
    forall i | 0 <= i < |a + b| ensures l[i] == r[i] {
      if i < |a| { assert (a + b)[i] == a[i]; } else { assert (a + b)[i] == b[i - |a|]; }
    }
  }

  lemma {:induction false} KeyedConcat(name: string, ss: seq<seq<Leaf>>)
    ensures Keyed(name, Concat(ss)) ==
            Concat(seq(|ss|, j requires 0 <= j < |ss| => Keyed(name, ss[j])))
    decreases |ss|
  {
    var ks := seq(|ss|, j requires 0 <= j < |ss| => Keyed(name, ss[j]));
    if ss != [] {
      var n := |ss| - 1;
      KeyedConcat(name, ss[..n]);
      KeyedAppend(name, Concat(ss[..n]), ss[n]);
      assert ks[..n] == seq(|ss[..n]|, j requires 0 <= j < |ss[..n]| => Keyed(name, ss[..n][j]));
    }
  }

  lemma RenderCons(seg: Segment, p: seq<Segment>)
    ensures Render([seg] + p) == SegmentText(seg) + Render(p)
  {
    assert ([seg] + p)[1..] == p;
  }

  lemma EntryUnder(name: string, seg: Segment, l: Leaf)
    ensures Entry(name, Leaf([seg] + l.path, l.value)) == Entry(name + SegmentText(seg), l)
  {
    RenderCons(seg, l.path);
    assert name + (SegmentText(seg) + Render(l.path)) == (name + SegmentText(seg)) + Render(l.path);
  }

  lemma KeyedUnder(name: string, seg: Segment, ls: seq<Leaf>)
    ensures Keyed(name, Under(seg, ls)) == Keyed(name + SegmentText(seg), ls)
  {
    var a := Keyed(name, Under(seg, ls));
    var b := Keyed(name + SegmentText(seg), ls);
    forall i | 0 <= i < |ls| ensures a[i] == b[i] {
      EntryUnder(name, seg, ls[i]);
    }
  }

  /** One pair of the dict case: its leaves seen from the dict are the
      value's own leaves under the pair's name. */
  lemma KeyedKey(name: string, key: string, ls: seq<Leaf>)
    ensures Keyed(name, Under(Key(key), ls)) == Keyed(name + key + "_", ls)
  {
    KeyedUnder(name, Key(key), ls);
    assert name + SegmentText(Key(key)) == name + key + "_";
  }

  /** The dict case of `WritesFollowLeaves`, given the law for each value. */
  lemma KeyedObject(fields: seq<(string, Json)>, name: string)
    requires forall j :: 0 <= j < |fields| ==>
      Writes(fields[j].1, name + fields[j].0 + "_") == Keyed(name + fields[j].0 + "_", Leaves(fields[j].1))
    ensures Writes(JObj(fields), name) == Keyed(name, Leaves(JObj(fields)))
  {
    var ss := seq(|fields|, j requires 0 <= j < |fields| =>
      Under(Key(fields[j].0), Leaves(fields[j].1)));
    var ws := seq(|fields|, j requires 0 <= j < |fields| =>
      Writes(fields[j].1, name + fields[j].0 + "_"));
    var ks := seq(|ss|, j requires 0 <= j < |ss| => Keyed(name, ss[j]));
    KeyedConcat(name, ss);
    forall j | 0 <= j < |fields| ensures ks[j] == ws[j] {
      KeyedKey(name, fields[j].0, Leaves(fields[j].1));
    }
    assert ks == ws;
  }

  /** One element of the list case: its leaves seen from the list are its
      own leaves under the element's name. */
  lemma KeyedIndex(name: string, j: nat, ls: seq<Leaf>)
    ensures Keyed(name, Under(Index(j), ls)) == Keyed(name + NatToString(j) + "_", ls)
  {
    KeyedUnder(name, Index(j), ls);
    assert name + SegmentText(Index(j)) == name + NatToString(j) + "_";
  }

  /** The list case of `WritesFollowLeaves`, given the law for each element. */
  lemma KeyedArray(items: seq<Json>, name: string)
    requires forall j :: 0 <= j < |items| ==>
      Writes(items[j], name + NatToString(j) + "_") == Keyed(name + NatToString(j) + "_", Leaves(items[j]))
    ensures Writes(JArr(items), name) == Keyed(name, Leaves(JArr(items)))
  {
    var ss := seq(|items|, j requires 0 <= j < |items| =>
      Under(Index(j), Leaves(items[j])));
    var ws := seq(|items|, j requires 0 <= j < |items| =>
      Writes(items[j], name + NatToString(j) + "_"));
    var ks := seq(|ss|, j requires 0 <= j < |ss| => Keyed(name, ss[j]));
    KeyedConcat(name, ss);
    forall j | 0 <= j < |items| ensures ks[j] == ws[j] {
      KeyedIndex(name, j, Leaves(items[j]));
    }
    assert ks == ws;
  }

  /** The leaf-key law: `flatten(x, name)` writes exactly one entry per
      leaf, in depth-first order, under `name` followed by the leaf's keys
      and indices (each with '_'), the last '_' dropped. */
  lemma {:induction false} WritesFollowLeaves(x: Json, name: string)
    ensures Writes(x, name) == Keyed(name, Leaves(x))
    decreases x
  {
    match x
    case JObj(fields) =>
      forall j | 0 <= j < |fields|
        ensures Writes(fields[j].1, name + fields[j].0 + "_") == Keyed(name + fields[j].0 + "_", Leaves(fields[j].1))
      {
        WritesFollowLeaves(fields[j].1, name + fields[j].0 + "_");
      }
      KeyedObject(fields, name);
    case JArr(items) =>
      forall j | 0 <= j < |items|
        ensures Writes(items[j], name + NatToString(j) + "_") == Keyed(name + NatToString(j) + "_", Leaves(items[j]))
      {
        WritesFollowLeaves(items[j], name + NatToString(j) + "_");
      }
      KeyedArray(items, name);
    case _ =>
      assert name + Render([]) == name;
      assert Keyed(name, Leaves(x)) == [Entry(name, Leaf([], x))];
  }

  /** From the root, the writes of `flatten(y)` are the leaves under their
      keys. */
  lemma WritesFromRoot(y: Json)
    ensures |Writes(y, "")| == |Leaves(y)|
    ensures forall j :: 0 <= j < |Leaves(y)| ==>
      Writes(y, "")[j] == (KeyOf(Leaves(y)[j].path), Leaves(y)[j].value)
  {
    WritesFollowLeaves(y, "");
    forall j | 0 <= j < |Leaves(y)|
      ensures Writes(y, "")[j] == (KeyOf(Leaves(y)[j].path), Leaves(y)[j].value)
    {
      assert Writes(y, "")[j] == Entry("", Leaves(y)[j]);
      assert "" + Render(Leaves(y)[j].path) == Render(Leaves(y)[j].path);
    }
  }

  /** An element of a concatenation comes from one of the parts. */
  lemma {:induction false} InConcat<T>(ss: seq<seq<T>>, e: T)
    requires e in Concat(ss)
    ensures exists j :: 0 <= j < |ss| && e in ss[j]
    decreases |ss|
  {
    var n := |ss| - 1;
    if e !in ss[n] {
      InConcat(ss[..n], e);
      var j :| 0 <= j < n && e in ss[..n][j];
      assert e in ss[j];
    }
  }

  /** A leaf is a scalar or null: dicts and lists never end up as values. */
  lemma {:induction false} LeavesAreScalars(x: Json)
    ensures forall l :: l in Leaves(x) ==> l.value.IsScalar()
    decreases x
  {
    match x
    case JObj(fields) =>
      var ss := seq(|fields|, j requires 0 <= j < |fields| =>
        Under(Key(fields[j].0), Leaves(fields[j].1)));
      forall l | l in Leaves(x) ensures l.value.IsScalar() {
        InConcat(ss, l);
        var j :| 0 <= j < |ss| && l in ss[j];
        LeavesAreScalars(fields[j].1);
        var i :| 0 <= i < |ss[j]| && ss[j][i] == l;
        assert Leaves(fields[j].1)[i] in Leaves(fields[j].1);
      }
    case JArr(items) =>
      var ss := seq(|items|, j requires 0 <= j < |items| =>
        Under(Index(j), Leaves(items[j])));
      forall l | l in Leaves(x) ensures l.value.IsScalar() {
        InConcat(ss, l);
        var j :| 0 <= j < |ss| && l in ss[j];
        LeavesAreScalars(items[j]);
        var i :| 0 <= i < |ss[j]| && ss[j][i] == l;
        assert Leaves(items[j])[i] in Leaves(items[j]);
      }
    case _ =>
  }

  /** The keys under which the leaves of `y` are stored. */
  function LeafKeys(y: Json): set<string> {
    set i | 0 <= i < |Leaves(y)| :: KeyOf(Leaves(y)[i].path)
  }

  /** The keys of a flattened record are the leaf keys and 'shop_name',
      nothing else: an empty nested dict or list contributes no key. */
  lemma FlattenKeys(y: Json, shopName: string)
    ensures FlattenRecord(y, shopName).Keys == LeafKeys(y) + {"shop_name"}
  {
    WritesFromRoot(y);
    ApplyKeys(map[], Writes(y, ""));
    assert WrittenKeys(Writes(y, "")) == LeafKeys(y);
  }

  /** A leaf is found under its key unless a leaf visited later has the
      same key (last write wins) or the key is 'shop_name' (written last). */
  lemma FlattenLeafValue(y: Json, shopName: string, i: nat)
    requires i < |Leaves(y)|
    requires KeyOf(Leaves(y)[i].path) != "shop_name"
    requires forall j :: i < j < |Leaves(y)| ==> KeyOf(Leaves(y)[j].path) != KeyOf(Leaves(y)[i].path)
    ensures KeyOf(Leaves(y)[i].path) in FlattenRecord(y, shopName)
    ensures FlattenRecord(y, shopName)[KeyOf(Leaves(y)[i].path)] == Leaves(y)[i].value
  {
    var ws := Writes(y, "");
    WritesFromRoot(y);
    assert forall j :: i < j < |ws| ==> ws[j].0 != ws[i].0;
    ApplyLastWins(map[], ws, i);
  }

  /** Every value of a flattened record is a scalar or null. */
  lemma FlattenValuesAreScalars(y: Json, shopName: string)
    ensures forall k :: k in FlattenRecord(y, shopName) ==> FlattenRecord(y, shopName)[k].IsScalar()
  {
    var ws := Writes(y, "");
    WritesFromRoot(y);
    LeavesAreScalars(y);
    forall k | k in FlattenRecord(y, shopName) ensures FlattenRecord(y, shopName)[k].IsScalar() {
      if k != "shop_name" {
        ApplyValueOrigin(map[], ws, k);
        var i :| 0 <= i < |ws| && ws[i] == (k, Apply(map[], ws)[k]);
        assert Leaves(y)[i] in Leaves(y);
      }
    }
  }

  /** The concatenation of one-element parts lists the elements. */
  lemma {:induction false} ConcatSingletons<T>(ss: seq<seq<T>>)
    requires forall j :: 0 <= j < |ss| ==> |ss[j]| == 1
    ensures Concat(ss) == seq(|ss|, j requires 0 <= j < |ss| => ss[j][0])
    decreases |ss|
  {
    if ss != [] {
      ConcatSingletons(ss[..|ss| - 1]);
    }
  }

  /** The leaves of a record without nesting: one per pair, at the path
      made of its key alone. */
  lemma FlatRecordLeaves(fields: seq<(string, Json)>)
    requires forall i :: 0 <= i < |fields| ==> fields[i].1.IsScalar()
    ensures |Leaves(JObj(fields))| == |fields|
    ensures forall j :: 0 <= j < |fields| ==> Leaves(JObj(fields))[j] == Leaf([Key(fields[j].0)], fields[j].1)
  {
    var ss := seq(|fields|, j requires 0 <= j < |fields| =>
      Under(Key(fields[j].0), Leaves(fields[j].1)));
    forall j | 0 <= j < |fields| ensures ss[j] == [Leaf([Key(fields[j].0)], fields[j].1)] {
      assert Leaves(fields[j].1) == [Leaf([], fields[j].1)];
      assert [Key(fields[j].0)] + [] == [Key(fields[j].0)];
    }
    ConcatSingletons(ss);
  }

  /** A top-level key is stored as it is. */
  lemma KeyOfSingleKey(k: string)
    ensures KeyOf([Key(k)]) == k
  {
    RenderCons(Key(k), []);
    assert Render([Key(k)]) == k + "_";
    assert (k + "_")[..|k|] == k;
  }

  /** The leaf keys of a record without nesting are its keys. */
  lemma FlatRecordKeys(fields: seq<(string, Json)>)
    requires forall i :: 0 <= i < |fields| ==> fields[i].1.IsScalar()
    ensures LeafKeys(JObj(fields)) == (set i | 0 <= i < |fields| :: fields[i].0)
  {
    var ls := Leaves(JObj(fields));
    FlatRecordLeaves(fields);
    forall j | 0 <= j < |fields| ensures KeyOf(ls[j].path) == fields[j].0 {
      KeyOfSingleKey(fields[j].0);
    }
  }

  /** In a record without nesting and with distinct keys, every field but
      'shop_name' keeps its value. */
  lemma FlatRecordValue(fields: seq<(string, Json)>, shopName: string, i: nat)
    requires forall i :: 0 <= i < |fields| ==> fields[i].1.IsScalar()
    requires forall i, j :: 0 <= i < j < |fields| ==> fields[i].0 != fields[j].0
    requires i < |fields| && fields[i].0 != "shop_name"
    ensures fields[i].0 in FlattenRecord(JObj(fields), shopName)
    ensures FlattenRecord(JObj(fields), shopName)[fields[i].0] == fields[i].1
  {
    var ls := Leaves(JObj(fields));
    FlatRecordLeaves(fields);
    forall j | 0 <= j < |fields| ensures KeyOf(ls[j].path) == fields[j].0 {
      KeyOfSingleKey(fields[j].0);
    }
    FlattenLeafValue(JObj(fields), shopName, i);
  }

  /** A record without nesting flattens to itself, plus 'shop_name' (which
      replaces a 'shop_name' field of the record). */
  lemma FlattenFlatRecord(fields: seq<(string, Json)>, shopName: string)
    requires forall i :: 0 <= i < |fields| ==> fields[i].1.IsScalar()
    requires forall i, j :: 0 <= i < j < |fields| ==> fields[i].0 != fields[j].0
    ensures FlattenRecord(JObj(fields), shopName).Keys == (set i | 0 <= i < |fields| :: fields[i].0) + {"shop_name"}
    ensures forall i :: 0 <= i < |fields| && fields[i].0 != "shop_name" ==>
      FlattenRecord(JObj(fields), shopName)[fields[i].0] == fields[i].1
  {
    FlatRecordKeys(fields);
    FlattenKeys(JObj(fields), shopName);
    forall i | 0 <= i < |fields| && fields[i].0 != "shop_name"
      ensures FlattenRecord(JObj(fields), shopName)[fields[i].0] == fields[i].1
    {
      FlatRecordValue(fields, shopName, i);
    }
  }

  /** A flattened key can come from two different paths: the top-level key
      'a_b' and the nested path a -> b both yield 'a_b', and the value met
      later in the walk is the one kept. */
  lemma CollidingKeysLastWins()
    ensures FlattenRecord(JObj([("a_b", JNum(1.0)), ("a", JObj([("b", JNum(2.0))]))]), "s") ==
            map["a_b" := JNum(2.0), "shop_name" := JStr("s")]
  {
    var inner := JObj([("b", JNum(2.0))]);
    var y := JObj([("a_b", JNum(1.0)), ("a", inner)]);
    assert DropLast("a_b_") == "a_b";
    assert "" + "a_b" + "_" == "a_b_";
    assert "" + "a" + "_" == "a_";
    assert "a_" + "b" + "_" == "a_b_";
    var w1 := Writes(JNum(1.0), "a_b_");
    assert w1 == [("a_b", JNum(1.0))];
    var w2 := Writes(inner, "a_");
    assert w2 == Concat([Writes(JNum(2.0), "a_b_")]);
    assert w2 == [("a_b", JNum(2.0))];
    var fs := y.fields;
    var parts := seq(|fs|, j requires 0 <= j < |fs| => Writes(fs[j].1, "" + fs[j].0 + "_"));
    assert parts[0] == w1 && parts[1] == w2;
    assert parts == [w1, w2];
    assert Concat([w1, w2]) == Concat([w1]) + w2;
    assert Writes(y, "") == [("a_b", JNum(1.0)), ("a_b", JNum(2.0))];
  }

  /** Empty nested containers leave no trace: only 'shop_name' remains. */
  lemma EmptyContainersContributeNothing(shopName: string)
    ensures FlattenRecord(JObj([("tags", JArr([])), ("note", JObj([]))]), shopName) ==
            map["shop_name" := JStr(shopName)]
    ensures FlattenRecord(JObj([]), shopName) == map["shop_name" := JStr(shopName)]
  {
    var y := JObj([("tags", JArr([])), ("note", JObj([]))]);
    var w1 := Writes(JArr([]), "tags_");
    var w2 := Writes(JObj([]), "note_");
    assert w1 == [] && w2 == [];
    assert "" + "tags" + "_" == "tags_" && "" + "note" + "_" == "note_";
    var fs := y.fields;
    var parts := seq(|fs|, j requires 0 <= j < |fs| => Writes(fs[j].1, "" + fs[j].0 + "_"));
    assert parts[0] == w1 && parts[1] == w2;
    assert parts == [w1, w2];
    assert Concat([w1, w2]) == Concat([w1]) + w2;
  }
}
