/** Encoding and decoding of stored nodes, with prefix compression, and the
    CID of a tree. */
module Codec {
  import opened Data
  import opened Keys
  import opened Tree

  /** An entry with its subtree settled to a CID. */
  datatype Flat = FL(leaf: Leaf) | FT(cid: Cid)

  /** The bytes two keys open with alike: all of them. */
  function SharedPrefix(a: Key, b: Key): (n: nat)
    ensures n <= |a| && n <= |b| && a[..n] == b[..n]
    ensures n < |a| && n < |b| ==> a[n] != b[n]
  {
    if a == [] || b == [] || a[0] != b[0] then 0
    else
      var n := 1 + SharedPrefix(a[1..], b[1..]);
      assert a[..n] == [a[0]] + a[1..][..n - 1] && b[..n] == [b[0]] + b[1..][..n - 1];
      n
  }

  // ---- Encoding ----

  /** What one pass over the entries writes, starting on a leaf. */
  function EncodeTail(fs: seq<Flat>, last: Key): seq<TreeEntry> {
    if fs == [] || fs[0].FT? then []
    else
      var leaf := fs[0].leaf;
      var p := SharedPrefix(last, leaf.key);
      if |fs| > 1 && fs[1].FT?
      then [TreeEntry(p, leaf.key[p..], leaf.value, Some(fs[1].cid))] + EncodeTail(fs[2..], leaf.key)
      else [TreeEntry(p, leaf.key[p..], leaf.value, None)] + EncodeTail(fs[1..], leaf.key)
  }

  function Encode(fs: seq<Flat>): NodeData {
    if fs != [] && fs[0].FT? then NodeData(Some(fs[0].cid), EncodeTail(fs[1..], []))
    else NodeData(None, EncodeTail(fs, []))
  }

  /** What a node has to be to be written: no two subtrees side by side, and
      every key one a tree takes. */
  predicate Writable(fs: seq<Flat>) {
    && (forall i :: 0 <= i < |fs| - 1 ==> fs[i].FL? || fs[i + 1].FL?)
    && (forall i :: 0 <= i < |fs| ==> fs[i].FL? ==> ValidKey(fs[i].leaf.key))
  }

  lemma EncodeStep(fs: seq<Flat>, i: nat, last: Key)
    requires i < |fs| && fs[i].FL?
    ensures var leaf := fs[i].leaf; var p := SharedPrefix(last, leaf.key);
            var more := i + 1 < |fs| && fs[i + 1].FT?;
            var t := if more then Some(fs[i + 1].cid) else None;
            EncodeTail(fs[i..], last)
            == [TreeEntry(p, leaf.key[p..], leaf.value, t)] + EncodeTail(fs[if more then i + 2 else i + 1..], leaf.key)
  {
    assert fs[i..][0] == fs[i] && fs[i..][1..] == fs[i + 1..];
    if i + 1 < |fs| { assert fs[i..][2..] == fs[i + 2..]; }
  }

  // ---- What is written, entry by entry ----

  /** The stored entries that stand for some entries: one for each leaf. */
  function StoredFor(fs: seq<Flat>): nat {
    if fs == [] then 0
    else StoredFor(fs[..|fs| - 1]) + if fs[|fs| - 1].FL? then 1 else 0
  }

  lemma StoredForNext(fs: seq<Flat>, i: nat)
    requires i < |fs|
    ensures StoredFor(fs[..i + 1]) == StoredFor(fs[..i]) + if fs[i].FL? then 1 else 0
  {
    assert fs[..i + 1][..i] == fs[..i];
  }

  /** The key of the leaf before an entry, past the subtree between. */
  function KeyBefore(fs: seq<Flat>, i: nat): Key
    requires i <= |fs|
  {
    if i > 0 && fs[i - 1].FL? then fs[i - 1].leaf.key
    else if i > 1 && fs[i - 2].FL? then fs[i - 2].leaf.key
    else []
  }

  /** A prefix length two keys share, and no longer one. */
  ghost predicate Longest(p: nat, a: Key, b: Key) {
    p <= |a| && p <= |b| && a[..p] == b[..p] && forall q :: p < q <= |a| && q <= |b| ==> a[..q] != b[..q]
  }

  /** A leaf in its stored form: as much of its key as the leaf before shares,
      as a length; the rest of it; its record; and the subtree right after. */
  ghost predicate WrittenAs(fs: seq<Flat>, i: nat, e: TreeEntry)
    requires i < |fs| && fs[i].FL?
  {
    && Longest(e.p, KeyBefore(fs, i), fs[i].leaf.key) && e.k == fs[i].leaf.key[e.p..]
    && e.v == fs[i].leaf.value
    && e.t == if i + 1 < |fs| && fs[i + 1].FT? then Some(fs[i + 1].cid) else None
  }

  /** A node in its stored form: its leaves in order, and any subtree that
      comes before the first of them. */
  ghost predicate Written(fs: seq<Flat>, d: NodeData) {
    && d.l == (if fs != [] && fs[0].FT? then Some(fs[0].cid) else None)
    && |d.e| == StoredFor(fs)
    && forall i :: 0 <= i < |fs| && fs[i].FL? ==>
         StoredFor(fs[..i]) < |d.e| && WrittenAs(fs, i, d.e[StoredFor(fs[..i])])
  }

  lemma SharedIsLongest(a: Key, b: Key)
    ensures Longest(SharedPrefix(a, b), a, b)
  {
    var n := SharedPrefix(a, b);
    forall q | n < q <= |a| && q <= |b| ensures a[..q] != b[..q] {
      assert a[..q][n] == a[n] && b[..q][n] == b[n];
    }
  }

  lemma {:induction false} TailWritten(fs: seq<Flat>, i: nat, last: Key, k: nat)
    requires Writable(fs) && i <= k <= |fs| && (i < |fs| ==> fs[i].FL? && last == KeyBefore(fs, i))
    ensures var e, from := EncodeTail(fs[i..], last), StoredFor(fs[..i]);
            && from + |e| == StoredFor(fs)
            && (k < |fs| && fs[k].FL? ==>
                  from <= StoredFor(fs[..k]) < from + |e| && WrittenAs(fs, k, e[StoredFor(fs[..k]) - from]))
    decreases |fs| - i
  {
    hide EncodeTail, SharedPrefix, StoredFor, WrittenAs, ValidKey;
    if i == |fs| {
      EncodeStart(fs);
      assert fs[..i] == fs;
    } else {
      var more := i + 1 < |fs| && fs[i + 1].FT?;
      var next := if more then i + 2 else i + 1;
      EncodeStep(fs, i, last);
      StoredForNext(fs, i);
      if more { StoredForNext(fs, i + 1); }
      NextIsLeaf(fs, i);
      TailWritten(fs, next, fs[i].leaf.key, if k < next then next else k);
      FirstWritten(fs, i, last);
    }
  }

  lemma NextIsLeaf(fs: seq<Flat>, i: nat)
    requires Writable(fs) && i < |fs| && fs[i].FL?
    ensures var next := if i + 1 < |fs| && fs[i + 1].FT? then i + 2 else i + 1;
            next < |fs| ==> fs[next].FL? && KeyBefore(fs, next) == fs[i].leaf.key
  {
    hide ValidKey;
    if i + 2 < |fs| { assert fs[i + 1].FL? || fs[i + 1 + 1].FL?; }
  }

  lemma FirstWritten(fs: seq<Flat>, i: nat, last: Key)
    requires i < |fs| && fs[i].FL? && last == KeyBefore(fs, i)
    ensures var leaf := fs[i].leaf; var p := SharedPrefix(last, leaf.key);
            var t := if i + 1 < |fs| && fs[i + 1].FT? then Some(fs[i + 1].cid) else None;
            WrittenAs(fs, i, TreeEntry(p, leaf.key[p..], leaf.value, t))
  {
    hide Longest;
    SharedIsLongest(last, fs[i].leaf.key);
  }

  /** Every node is written so: its keys are as short as what comes before them
      allows. */
  lemma EncodeWrites(fs: seq<Flat>)
    requires Writable(fs)
    ensures Written(fs, Encode(fs))
  {
    hide EncodeTail, ValidKey, WrittenAs, KeyBefore, StoredFor;
    var n := if fs != [] && fs[0].FT? then 1 else 0;
    EncodeStart(fs);
    if n < |fs| { StartsOnLeaf(fs, n); }
    StoredStart(fs, n);
    TailWritten(fs, n, [], n);
    forall i | 0 <= i < |fs| && fs[i].FL?
      ensures StoredFor(fs[..i]) < |Encode(fs).e| && WrittenAs(fs, i, Encode(fs).e[StoredFor(fs[..i])])
    {
      TailWritten(fs, n, [], i);
    }
  }

  lemma StartsOnLeaf(fs: seq<Flat>, n: nat)
    requires Writable(fs) && n < |fs| && n == if fs[0].FT? then 1 else 0
    ensures fs[n].FL? && KeyBefore(fs, n) == []
  {
    hide ValidKey;
    if n == 1 { assert fs[0].FL? || fs[0 + 1].FL?; }
  }

  lemma StoredStart(fs: seq<Flat>, n: nat)
    requires n == if fs != [] && fs[0].FT? then 1 else 0
    ensures StoredFor(fs[..n]) == 0
  {
    assert fs[..0] == [];
    if n == 1 { StoredForNext(fs, 0); }
  }

  /** An entry that keeps a node from being written: a key no tree takes, or a
      subtree right after another. */
  ghost predicate BadAt(fs: seq<Flat>, i: nat)
    requires i < |fs|
  {
    if fs[i].FL? then !ValidKey(fs[i].leaf.key) else i > 0 && fs[i - 1].FT?
  }

  ghost predicate Blamed(fs: seq<Flat>, i: nat, e: Error)
    requires i < |fs|
  {
    && BadAt(fs, i) && (forall j :: 0 <= j < i ==> !BadAt(fs, j))
    && e == if fs[i].FL? then InvalidKey(fs[i].leaf.key) else MalformedNode("two subtrees side by side")
  }

  lemma CheckedNotBad(fs: seq<Flat>, n: nat)
    requires Checked(fs, n)
    ensures forall j :: 0 <= j < n ==> !BadAt(fs, j)
    ensures n < |fs| && fs[n].FT? && n > 0 ==> BadAt(fs, n)
  {
    hide ValidKey;
    forall j | 0 <= j < n ensures !BadAt(fs, j) {
      if j > 0 { assert fs[j - 1].FL? || fs[j - 1 + 1].FL?; }
    }
  }

  /** The first thing wrong with some entries, from where a leaf is due. */
  function Fault(fs: seq<Flat>): Option<Error> {
    if fs == [] then None
    else if fs[0].FT? then Some(MalformedNode("two subtrees side by side"))
    else if !ValidKey(fs[0].leaf.key) then Some(InvalidKey(fs[0].leaf.key))
    else Fault(fs[if |fs| > 1 && fs[1].FT? then 2 else 1..])
  }

  lemma FaultStep(fs: seq<Flat>, i: nat)
    requires i < |fs|
    ensures Fault(fs[i..]) ==
            if fs[i].FT? then Some(MalformedNode("two subtrees side by side"))
            else if !ValidKey(fs[i].leaf.key) then Some(InvalidKey(fs[i].leaf.key))
            else Fault(fs[if i + 1 < |fs| && fs[i + 1].FT? then i + 2 else i + 1..])
  {
    hide ValidKey;
    var more := i + 1 < |fs| && fs[i + 1].FT?;
    assert fs[i..][0] == fs[i] && fs[i..][if more then 2 else 1..] == fs[if more then i + 2 else i + 1..];
  }

  /** What the first `n` entries have been found to be. */
  ghost predicate Checked(fs: seq<Flat>, n: nat) {
    && n <= |fs|
    && (forall i :: 0 <= i < n - 1 ==> fs[i].FL? || fs[i + 1].FL?)
    && (forall i :: 0 <= i < n ==> fs[i].FL? ==> ValidKey(fs[i].leaf.key))
    && (0 < n < |fs| && fs[n - 1].FL? ==> fs[n].FL?)
  }

  lemma CheckedIs(fs: seq<Flat>, n: nat)
    requires Checked(fs, n)
    ensures n == |fs| ==> Writable(fs)
    ensures 0 < n < |fs| && fs[n].FT? ==> !Writable(fs)
  {
    hide ValidKey;
    if 0 < n < |fs| && fs[n].FT? { assert !(fs[n - 1].FL? || fs[n - 1 + 1].FL?); }
  }

  lemma CheckedNext(fs: seq<Flat>, n: nat)
    requires Checked(fs, n) && n < |fs| && fs[n].FL? && ValidKey(fs[n].leaf.key)
    ensures Checked(fs, if n + 1 < |fs| && fs[n + 1].FT? then n + 2 else n + 1)
  {
    hide ValidKey;
  }

  /** Where the pass starts, and that nothing is left once it is through. */
  lemma EncodeStart(fs: seq<Flat>)
    ensures var n := if fs != [] && fs[0].FT? then 1 else 0;
            && Checked(fs, n) && Encode(fs).e == EncodeTail(fs[n..], [])
            && Encode(fs).l == if n == 1 then Some(fs[0].cid) else None
    ensures forall last :: EncodeTail(fs[|fs|..], last) == []
  {
    hide ValidKey, SharedPrefix;
    assert fs[0..] == fs;
  }

  /** The loop that writes a node: it succeeds exactly where the node is
      writable, and writes what `Encode` says. */
  method Serialize(fs: seq<Flat>) returns (r: Result<NodeData>)
    ensures r.Ok? <==> Writable(fs)
    ensures r.Ok? ==> r.value == Encode(fs) && Written(fs, r.value)
    ensures r.Err? ==> Fault(fs[if fs != [] && fs[0].FT? then 1 else 0..]) == Some(r.error)
    ensures r.Err? ==> exists i :: 0 <= i < |fs| && Blamed(fs, i, r.error)
  {
    hide ValidKey, SharedPrefix, EncodeTail, Encode, Checked, Fault, Written, BadAt, Writable;
    var l: Option<Cid>, e: seq<TreeEntry>, index, last: Key := None, [], 0, [];
    ghost var whole := Encode(fs);
    EncodeStart(fs);
    if fs != [] && fs[0].FT? {
      l, index := Some(fs[0].cid), 1;
    }
    ghost var fault := Fault(fs[index..]);
    while index < |fs|
      invariant index <= |fs| && Checked(fs, index) && l == whole.l
      invariant fs != [] && fs[0].FT? ==> index > 0
      invariant e + EncodeTail(fs[index..], last) == whole.e
      invariant Fault(fs[index..]) == fault
    {
      CheckedIs(fs, index);
      FaultStep(fs, index);
      CheckedNotBad(fs, index);
      if fs[index].FT? {
        assert Blamed(fs, index, MalformedNode("two subtrees side by side"));
        return Err(MalformedNode("two subtrees side by side"));
      }
      var leaf := fs[index].leaf;
      var t := None;
      var next := index + 1;
      if next < |fs| && fs[next].FT? {
        t := Some(fs[next].cid);
        next := next + 1;
      }
      if !ValidKey(leaf.key) {
        NotWritable(fs, index);
        assert Blamed(fs, index, InvalidKey(leaf.key));
        return Err(InvalidKey(leaf.key));
      }
      var p := SharedPrefix(last, leaf.key);
      CheckedNext(fs, index);
      EncodeStep(fs, index, last);
      Append(e, TreeEntry(p, leaf.key[p..], leaf.value, t), EncodeTail(fs[next..], leaf.key));
      e := e + [TreeEntry(p, leaf.key[p..], leaf.value, t)];
      index, last := next, leaf.key;
    }
    CheckedIs(fs, index);
    EncodeWrites(fs);
    r := Ok(NodeData(l, e));
  }

  lemma NotWritable(fs: seq<Flat>, i: nat)
    requires i < |fs| && fs[i].FL? && !ValidKey(fs[i].leaf.key)
    ensures !Writable(fs) && BadAt(fs, i)
  {
    hide ValidKey;
  }

  lemma Append(e: seq<TreeEntry>, x: TreeEntry, rest: seq<TreeEntry>)
    ensures e + ([x] + rest) == (e + [x]) + rest
    ensures e + [] == e
  {
  }

  // ---- Decoding ----

  function Pointer(t: Option<Cid>): seq<Flat> {
    if t.Some? then [FT(t.value)] else []
  }

  function DecodeTail(e: seq<TreeEntry>, last: Key): Result<seq<Flat>> {
    if e == [] then Ok([])
    else if e[0].p > |last| then Err(MalformedNode("a prefix longer than the key before it"))
    else
      var key := last[..e[0].p] + e[0].k;
      if !ValidKey(key) then Err(InvalidKey(key))
      else
        match DecodeTail(e[1..], key)
        case Err(err) => Err(err)
        case Ok(rest) => Ok([FL(Leaf(key, e[0].v))] + Pointer(e[0].t) + rest)
  }

  function Decode(data: NodeData): Result<seq<Flat>> {
    match DecodeTail(data.e, [])
    case Err(err) => Err(err)
    case Ok(rest) => Ok(Pointer(data.l) + rest)
  }

  // ---- What is read, entry by entry ----

  /** A leaf read from its stored form: the shared part of the key before it
      put back, and what is left a key a tree takes. */
  ghost predicate ReadAs(fs: seq<Flat>, i: nat, e: TreeEntry)
    requires i < |fs| && fs[i].FL?
  {
    && e.p <= |KeyBefore(fs, i)| && fs[i].leaf == Leaf(KeyBefore(fs, i)[..e.p] + e.k, e.v) && ValidKey(fs[i].leaf.key)
    && e.t == if i + 1 < |fs| && fs[i + 1].FT? then Some(fs[i + 1].cid) else None
  }

  ghost predicate ReadFrom(fs: seq<Flat>, d: NodeData) {
    && d.l == (if fs != [] && fs[0].FT? then Some(fs[0].cid) else None)
    && |d.e| == StoredFor(fs)
    && forall i :: 0 <= i < |fs| && fs[i].FL? ==>
         StoredFor(fs[..i]) < |d.e| && ReadAs(fs, i, d.e[StoredFor(fs[..i])])
  }

  lemma DecodedHead(e: seq<TreeEntry>, last: Key)
    requires e != [] && DecodeTail(e, last).Ok?
    ensures e[0].p <= |last| && ValidKey(last[..e[0].p] + e[0].k)
    ensures var key := last[..e[0].p] + e[0].k;
            && DecodeTail(e[1..], key).Ok?
            && DecodeTail(e, last).value == [FL(Leaf(key, e[0].v))] + Pointer(e[0].t) + DecodeTail(e[1..], key).value
  {
    hide ValidKey;
  }

  lemma OpensOnLeaf(e: seq<TreeEntry>, last: Key)
    requires DecodeTail(e, last).Ok?
    ensures DecodeTail(e, last).value == [] <==> e == []
    ensures e != [] ==> DecodeTail(e, last).value[0].FL?
  {
    hide ValidKey;
  }

  lemma {:induction false} TailRead(fs: seq<Flat>, i: nat, e: seq<TreeEntry>, last: Key, k: nat)
    requires i <= k <= |fs| && DecodeTail(e, last) == Ok(fs[i..]) && last == KeyBefore(fs, i)
    ensures var from := StoredFor(fs[..i]);
            && from + |e| == StoredFor(fs)
            && (k < |fs| && fs[k].FL? ==>
                  from <= StoredFor(fs[..k]) < from + |e| && ReadAs(fs, k, e[StoredFor(fs[..k]) - from]))
    decreases |e|
  {
    hide DecodeTail, StoredFor, ReadAs, ValidKey, KeyBefore, Pointer;
    OpensOnLeaf(e, last);
    if e == [] {
      assert fs[..i] == fs;
    } else {
      DecodedHead(e, last);
      var x, key := e[0], last[..e[0].p] + e[0].k;
      OpensOnLeaf(e[1..], key);
      var rest, next := DecodeTail(e[1..], key).value, i + 1 + |Pointer(x.t)|;
      HeadOf(fs, i, x, key, rest);
      StoredForNext(fs, i);
      if next == i + 2 { StoredForNext(fs, i + 1); }
      TailRead(fs, next, e[1..], key, if k < next then next else k);
      ReadHead(fs, i, x, last);
    }
  }

  /** Entries that open with a leaf and whatever is under its pointer. */
  lemma HeadOf(fs: seq<Flat>, i: nat, x: TreeEntry, key: Key, rest: seq<Flat>)
    requires i <= |fs| && fs[i..] == [FL(Leaf(key, x.v))] + Pointer(x.t) + rest && (rest != [] ==> rest[0].FL?)
    ensures var next := i + 1 + |Pointer(x.t)|;
            && next <= i + 2 && next <= |fs| && fs[next..] == rest && KeyBefore(fs, next) == key
            && fs[i] == FL(Leaf(key, x.v)) && (next == i + 2 ==> fs[i + 1].FT?)
            && x.t == if i + 1 < |fs| && fs[i + 1].FT? then Some(fs[i + 1].cid) else None
  {
    var next := i + 1 + |Pointer(x.t)|;
    assert fs[i] == fs[i..][0] && fs[next..] == fs[i..][next - i..] == rest;
    if x.t.Some? { assert fs[i + 1] == fs[i..][1] == FT(x.t.value); }
    if next < |fs| { assert fs[next] == rest[0]; }
  }

  lemma ReadHead(fs: seq<Flat>, i: nat, x: TreeEntry, last: Key)
    requires i < |fs| && last == KeyBefore(fs, i) && x.p <= |last|
    requires fs[i] == FL(Leaf(last[..x.p] + x.k, x.v)) && ValidKey(last[..x.p] + x.k)
    requires x.t == if i + 1 < |fs| && fs[i + 1].FT? then Some(fs[i + 1].cid) else None
    ensures ReadAs(fs, i, x)
  {
    hide ValidKey;
  }

  /** Whatever node is read is read so. */
  lemma DecodeReads(d: NodeData)
    requires Decode(d).Ok?
    ensures ReadFrom(Decode(d).value, d)
  {
    hide DecodeTail, ReadAs, StoredFor;
    var fs, n := Decode(d).value, |Pointer(d.l)|;
    assert fs[n..] == DecodeTail(d.e, []).value;
    OpensOnLeaf(d.e, []);
    StoredStart(fs, n);
    TailRead(fs, n, d.e, [], n);
    forall i | 0 <= i < |fs| && fs[i].FL?
      ensures StoredFor(fs[..i]) < |d.e| && ReadAs(fs, i, d.e[StoredFor(fs[..i])])
    {
      TailRead(fs, n, d.e, [], i);
    }
  }

  /** Why one entry cannot follow a key: it shares more than there is, or makes
      no key a tree takes. */
  ghost predicate Unreadable(x: TreeEntry, last: Key, e: Error) {
    if x.p > |last| then e == MalformedNode("a prefix longer than the key before it")
    else !ValidKey(last[..x.p] + x.k) && e == InvalidKey(last[..x.p] + x.k)
  }

  /** A node is refused at the first entry that cannot follow those before it. */
  ghost predicate RefusedAt(d: NodeData, j: nat, e: Error)
    requires j < |d.e|
  {
    var before := Decode(NodeData(d.l, d.e[..j]));
    before.Ok? && Unreadable(d.e[j], KeyBefore(before.value, |before.value|), e)
  }

  lemma {:induction false} TailRefused(e: seq<TreeEntry>, last: Key) returns (j: nat)
    requires DecodeTail(e, last).Err?
    ensures j < |e| && DecodeTail(e[..j], last).Ok?
    ensures var before := DecodeTail(e[..j], last).value;
            Unreadable(e[j], if before == [] then last else KeyBefore(before, |before|), DecodeTail(e, last).error)
  {
    hide ValidKey;
    var x := e[0];
    j := 0;
    if x.p <= |last| && ValidKey(last[..x.p] + x.k) {
      var key := last[..x.p] + x.k;
      j := TailRefused(e[1..], key);
      j := j + 1;
      assert e[..j][1..] == e[1..][..j - 1] && e[..j][0] == x;
      OpensOnLeaf(e[..j][1..], key);
      var rest := DecodeTail(e[..j][1..], key).value;
      LastKeyOf(key, x, rest);
    }
  }

  lemma LastKeyOf(key: Key, x: TreeEntry, rest: seq<Flat>)
    requires rest != [] ==> rest[0].FL?
    ensures var all := [FL(Leaf(key, x.v))] + Pointer(x.t) + rest;
            KeyBefore(all, |all|) == if rest == [] then key else KeyBefore(rest, |rest|)
  {
    var all := [FL(Leaf(key, x.v))] + Pointer(x.t) + rest;
    var n := |all| - |rest|;
    assert forall i :: 0 <= i < |rest| ==> all[n + i] == rest[i];
    if |rest| == 1 { assert all[n] == rest[0]; }
  }

  lemma DecodeRefused(d: NodeData)
    requires Decode(d).Err?
    ensures exists j :: 0 <= j < |d.e| && RefusedAt(d, j, Decode(d).error)
  {
    hide DecodeTail, Unreadable;
    var j := TailRefused(d.e, []);
    var tail := DecodeTail(d.e[..j], []).value;
    OpensOnLeaf(d.e[..j], []);
    PointerFirst(d.l, tail);
    assert RefusedAt(d, j, Decode(d).error);
  }

  lemma PointerFirst(l: Option<Cid>, rest: seq<Flat>)
    requires rest != [] ==> rest[0].FL?
    ensures var all := Pointer(l) + rest;
            KeyBefore(all, |all|) == if rest == [] then [] else KeyBefore(rest, |rest|)
  {
    var all := Pointer(l) + rest;
    var n := |all| - |rest|;
    assert forall i :: 0 <= i < |rest| ==> all[n + i] == rest[i];
    if |rest| == 1 { assert all[n] == rest[0]; }
  }

  /** The loop that reads a node. */
  method Deserialize(data: NodeData) returns (r: Result<seq<Flat>>)
    ensures r == Decode(data)
    ensures r.Ok? ==> ReadFrom(r.value, data)
    ensures r.Err? ==> exists j :: 0 <= j < |data.e| && RefusedAt(data, j, r.error)
  {
    hide ValidKey, DecodeTail, ReadFrom, RefusedAt;
    if Decode(data).Ok? { DecodeReads(data); } else { DecodeRefused(data); }
    var entries := [];
    if data.l.Some? { entries := [FT(data.l.value)]; }
    var last: Key, i := [], 0;
    while i < |data.e|
      invariant 0 <= i <= |data.e|
      invariant Decode(data) == match DecodeTail(data.e[i..], last)
                                case Err(err) => Err(err)
                                case Ok(rest) => Ok(entries + rest)
    {
      var entry := data.e[i];
      DecodeNext(data.e, i, last);
      if entry.p > |last| { return Err(MalformedNode("a prefix longer than the key before it")); }
      var key := last[..entry.p] + entry.k;
      if !ValidKey(key) { return Err(InvalidKey(key)); }
      ghost var before := entries;
      entries := entries + [FL(Leaf(key, entry.v))];
      last := key;
      if entry.t.Some? { entries := entries + [FT(entry.t.value)]; }
      assert entries == before + ([FL(Leaf(key, entry.v))] + Pointer(entry.t));
      assert forall rest: seq<Flat> {:trigger entries + rest} ::
        before + ([FL(Leaf(key, entry.v))] + Pointer(entry.t) + rest) == entries + rest;
      i := i + 1;
    }
    assert data.e[i..] == [] && entries + [] == entries;
    NothingWritten(last);
    r := Ok(entries);
  }

  lemma DecodeNext(e: seq<TreeEntry>, i: nat, last: Key)
    requires i < |e|
    ensures var x := e[i];
            DecodeTail(e[i..], last) ==
            if x.p > |last| then Err(MalformedNode("a prefix longer than the key before it"))
            else
              var key := last[..x.p] + x.k;
              if !ValidKey(key) then Err(InvalidKey(key))
              else
                match DecodeTail(e[i + 1..], key)
                case Err(err) => Err(err)
                case Ok(rest) => Ok([FL(Leaf(key, x.v))] + Pointer(x.t) + rest)
  {
    hide ValidKey;
    assert e[i..][0] == e[i] && e[i..][1..] == e[i + 1..];
  }

  // ---- Round trip ----

  lemma WritableRest(fs: seq<Flat>, i: nat)
    requires Writable(fs) && i <= |fs|
    ensures Writable(fs[i..])
  {
    var g := fs[i..];
    assert forall j :: 0 <= j < |g| ==> g[j] == fs[i + j];
    forall j | 0 <= j < |g| - 1 ensures g[j].FL? || g[j + 1].FL? {
      assert fs[i + j].FL? || fs[i + j + 1].FL?;
    }
  }

  lemma {:induction false} TailRoundTrip(fs: seq<Flat>, last: Key)
    requires Writable(fs) && (fs != [] ==> fs[0].FL?)
    ensures DecodeTail(EncodeTail(fs, last), last) == Ok(fs)
    decreases |fs|
  {
    hide ValidKey, SharedPrefix, EncodeTail, DecodeTail, Writable;
    if fs == [] {
      NothingWritten(last);
    } else {
      var leaf := fs[0].leaf;
      var p := SharedPrefix(last, leaf.key);
      var n, t := if |fs| > 1 && fs[1].FT? then 2 else 1, if |fs| > 1 && fs[1].FT? then Some(fs[1].cid) else None;
      WritableHead(fs, n);
      WritableRest(fs, n);
      TailRoundTrip(fs[n..], leaf.key);
      var e, rest := TreeEntry(p, leaf.key[p..], leaf.value, t), EncodeTail(fs[n..], leaf.key);
      EncodeStep(fs, 0, last);
      assert fs[0..] == fs;
      DecodeStep(e, rest, last, leaf.key);
      assert [fs[0]] + Pointer(t) + fs[n..] == fs;
    }
  }

  lemma NothingWritten(last: Key)
    ensures EncodeTail([], last) == [] && DecodeTail([], last) == Ok([])
  {
  }

  lemma WritableHead(fs: seq<Flat>, n: nat)
    requires Writable(fs) && fs != [] && fs[0].FL? && n == if |fs| > 1 && fs[1].FT? then 2 else 1
    ensures ValidKey(fs[0].leaf.key) && (n < |fs| ==> fs[n].FL?)
  {
    hide ValidKey;
    if n == 2 && n < |fs| { assert fs[1].FL? || fs[1 + 1].FL?; }
  }

  lemma DecodeStep(e: TreeEntry, rest: seq<TreeEntry>, last: Key, key: Key)
    requires e.p <= |last| && e.p <= |key| && last[..e.p] == key[..e.p] && e.k == key[e.p..] && ValidKey(key)
    requires DecodeTail(rest, key).Ok?
    ensures DecodeTail([e] + rest, last) == Ok([FL(Leaf(key, e.v))] + Pointer(e.t) + DecodeTail(rest, key).value)
  {
    hide ValidKey;
    assert last[..e.p] + e.k == key;
    assert ([e] + rest)[1..] == rest;
  }

  lemma SecondIsLeaf(fs: seq<Flat>)
    requires Writable(fs) && |fs| > 1 && fs[0].FT?
    ensures fs[1].FL?
  {
    assert fs[0].FL? || fs[0 + 1].FL?;
  }

  /** Reading back what was written restores the entries, subtrees as CIDs,
      whatever the keys shared. */
  lemma RoundTrip(fs: seq<Flat>)
    requires Writable(fs)
    ensures Decode(Encode(fs)) == Ok(fs)
  {
    hide ValidKey, EncodeTail, DecodeTail;
    if fs != [] && fs[0].FT? {
      WritableRest(fs, 1);
      if |fs| > 1 { SecondIsLeaf(fs); }
      TailRoundTrip(fs[1..], []);
      assert [fs[0]] + fs[1..] == fs;
    } else {
      TailRoundTrip(fs, []);
      assert [] + fs == fs;
    }
  }

  /** The first stored key is a whole key, so it gives the layer away. */
  lemma FirstKeyIsWhole(fs: seq<Flat>)
    requires Writable(fs)
    ensures var e := Encode(fs).e; var i := if fs != [] && fs[0].FT? then 1 else 0;
            && (e == [] <==> i >= |fs|)
            && (e != [] ==> fs[i].FL? && e[0].k == fs[i].leaf.key)
  {
    if fs != [] && fs[0].FT? && |fs| > 1 { SecondIsLeaf(fs); }
  }

  // ---- The CID of a node ----

  function FlatOf(es: seq<Entry>): (fs: seq<Flat>)
    ensures |fs| == |es|
    decreases Node(es), 0
  {
    seq(|es|, i requires 0 <= i < |es| =>
      if es[i].L? then FL(es[i].leaf) else FT(CidOf(es[i].sub.entries)))
  }

  /** What a node hashes to, and everything under it. */
  function CidOf(es: seq<Entry>): Cid
    decreases Node(es), 1
  {
    NodeCid(Encode(FlatOf(es)))
  }

  /** A tree every node of which can be written. */
  ghost predicate Proper(es: seq<Entry>, n: nat) {
    WellFormed(es, n) && ValidKeys(Leaves(es))
  }

  lemma FlatWritable(es: seq<Entry>)
    requires NoneAdjacent(es) && ValidKeys(Leaves(es))
    ensures Writable(FlatOf(es))
  {
    var fs := FlatOf(es);
    forall i | 0 <= i < |fs| && fs[i].FL? ensures ValidKey(fs[i].leaf.key) {
      LeavesAround(es, i);
      assert EntryLeaves(es[i]) == [es[i].leaf];
      assert Leaves(es)[|Leaves(es[..i])|] == es[i].leaf;
    }
    assert forall i :: 0 <= i < |es| - 1 ==> es[i].L? || es[i + 1].L?;
  }

  lemma SubValid(es: seq<Entry>, i: nat)
    requires ValidKeys(Leaves(es)) && i < |es| && es[i].T?
    ensures ValidKeys(Leaves(es[i].sub.entries))
  {
    LeavesAround(es, i);
    ValidMiddle(Leaves(es[..i]), Leaves(es[i].sub.entries), Leaves(es[i + 1..]));
  }

  lemma ValidMiddle(a: seq<Leaf>, b: seq<Leaf>, c: seq<Leaf>)
    requires ValidKeys(a + b + c)
    ensures ValidKeys(a) && ValidKeys(b) && ValidKeys(c)
  {
    hide ValidKey;
    var s := a + b + c;
    assert a == s[..|a|] && b == s[|a|..|a| + |b|] && c == s[|a| + |b|..];
  }

  /** Trees are told apart by their CIDs. */
  lemma {:induction false} CidInjective(a: seq<Entry>, na: nat, b: seq<Entry>, nb: nat)
    requires Fits(a, na) && Fits(b, nb) && ValidKeys(Leaves(a)) && ValidKeys(Leaves(b))
    requires CidOf(a) == CidOf(b)
    ensures a == b
    decreases na
  {
    var fa, fb := FlatOf(a), FlatOf(b);
    FlatWritable(a);
    FlatWritable(b);
    RoundTrip(fa);
    RoundTrip(fb);
    assert fa == fb;
    forall i | 0 <= i < |a| ensures a[i] == b[i] {
      assert fa[i] == fb[i];
      if a[i].T? {
        assert FitsEntry(a[i], na) && FitsEntry(b[i], nb);
        SubValid(a, i);
        SubValid(b, i);
        CidInjective(a[i].sub.entries, na - 1, b[i].sub.entries, nb - 1);
      }
    }
  }
}
