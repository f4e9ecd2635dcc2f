/**
 * What every prefix of a run of file-system steps leaves on disk. A step list is safe when block files
 * only ever appear whole and under their own digest, and manifest files only ever appear whole and
 * describing a registered object; safety then holds at every crash point.
 */
module DiskSafety {
  import opened Prelude
  import opened Storage
  import opened Compat
  import opened CacheSpec

  /** A registered object: what the write-once map holds for an identity. */
  datatype Object = Object(address: Address, compat: CompatKey, payload: Bytes, createdNs: u64)

  type Registry = map<Digest, Object>

  /**
   * What the invariant needs to know of objects, kept abstract while steps are followed: which objects are
   * well-formed, their blocks, lengths and identities, and the text of their manifests.
   */
  datatype Rules = Rules(
    content: Content, known: iset<Bytes>, hasStore: bool,
    good: (Digest, Object) -> bool, readable: Object -> bool, text: (Digest, Object) -> Bytes,
    blocks: Object -> seq<BlockRef>, length: Object -> u64, count: Object -> u64, identify: CompatKey -> Digest)

  /** Block files carry their digest's content; manifest files describe exactly the objects of `m`. */
  ghost predicate DiskSound(r: Rules, m: Registry, d: Disk) {
    && (forall h :: BlockFile(h) in d ==> r.content.hash(d[BlockFile(h)]) == h && d[BlockFile(h)] in r.known)
    && (forall o :: ManifestFile(o) in d <==> o in m)
    && (forall o :: o in m ==> r.good(o, m[o]) && d[ManifestFile(o)] == r.text(o, m[o]))
  }

  /** Only temporary files are written in place; a rename completes a block or a registered object's manifest. */
  ghost predicate Safe(r: Rules, a: Registry, d: Disk, op: DiskOp) {
    match op
    case Create(p) => p.Temp?
    case Fill(p, _) => p.Temp?
    case Remove(p) => !p.Temp?
    case Rename(from, to) =>
      && from == Temp(to) && from in d
      && match to
         case BlockFile(h) => r.content.hash(d[from]) == h && d[from] in r.known
         case ManifestFile(o) => o in a && r.good(o, a[o]) && d[from] == r.text(o, a[o])
         case Temp(_) => false
  }

  ghost predicate SafeRun(r: Rules, a: Registry, d: Disk, ops: seq<DiskOp>)
    decreases |ops|
  {
    ops == [] || (Safe(r, a, d, ops[0]) && SafeRun(r, a, Apply(d, ops[0]), ops[1..]))
  }

  /** Which object each manifest file describes, after one step and after several. */
  function Described(m: Registry, a: Registry, op: DiskOp): Registry {
    match op
    case Remove(p) => if p.ManifestFile? then m - {p.oid} else m
    case Rename(_, to) => if to.ManifestFile? && to.oid in a then m[to.oid := a[to.oid]] else m
    case _ => m
  }

  function DescribedAfter(m: Registry, a: Registry, ops: seq<DiskOp>): Registry
    decreases |ops|
  {
    if ops == [] then m else DescribedAfter(Described(m, a, ops[0]), a, ops[1..])
  }

  lemma SafeStepSound(r: Rules, m: Registry, a: Registry, d: Disk, op: DiskOp)
    requires DiskSound(r, m, d) && Safe(r, a, d, op)
    ensures DiskSound(r, Described(m, a, op), Apply(d, op))
  {
  }

  lemma {:induction false} SafeRunSound(r: Rules, m: Registry, a: Registry, d: Disk, ops: seq<DiskOp>)
    requires DiskSound(r, m, d) && SafeRun(r, a, d, ops)
    ensures DiskSound(r, DescribedAfter(m, a, ops), ApplyAll(d, ops))
    decreases |ops|
  {
    if ops != [] {
      SafeStepSound(r, m, a, d, ops[0]);
      SafeRunSound(r, Described(m, a, ops[0]), a, Apply(d, ops[0]), ops[1..]);
    }
  }

  lemma {:induction false} SafeRunPrefix(r: Rules, a: Registry, d: Disk, ops: seq<DiskOp>, k: nat)
    requires SafeRun(r, a, d, ops) && k <= |ops|
    ensures SafeRun(r, a, d, ops[..k])
    decreases k
  {
    if k > 0 {
      SafeRunPrefix(r, a, Apply(d, ops[0]), ops[1..], k - 1);
      assert ops[..k][1..] == ops[1..][..k - 1];
    }
  }

  /** Cut a safe run anywhere: the disk is sound there. */
  lemma SoundAtEveryCrashPoint(r: Rules, m: Registry, a: Registry, d: Disk, ops: seq<DiskOp>, k: nat)
    requires DiskSound(r, m, d) && SafeRun(r, a, d, ops) && k <= |ops|
    ensures DiskSound(r, DescribedAfter(m, a, ops[..k]), ApplyAll(d, ops[..k]))
  {
    SafeRunPrefix(r, a, d, ops, k);
    SafeRunSound(r, m, a, d, ops[..k]);
  }

  lemma {:induction false} RunConcat(r: Rules, m: Registry, a: Registry, d: Disk, x: seq<DiskOp>, y: seq<DiskOp>)
    ensures ApplyAll(d, x + y) == ApplyAll(ApplyAll(d, x), y)
    ensures DescribedAfter(m, a, x + y) == DescribedAfter(DescribedAfter(m, a, x), a, y)
    ensures SafeRun(r, a, d, x) && SafeRun(r, a, ApplyAll(d, x), y) ==> SafeRun(r, a, d, x + y)
    decreases |x|
  {
    if x == [] {
      assert x + y == y;
    } else {
      assert (x + y)[1..] == x[1..] + y;
      RunConcat(r, Described(m, a, x[0]), a, Apply(d, x[0]), x[1..], y);
    }
  }

  /** No step of the list removes the path. */
  predicate Spares(ops: seq<DiskOp>, p: Path) {
    forall i :: 0 <= i < |ops| ==> ops[i] != Remove(p)
  }

  lemma {:induction false} SparedStays(r: Rules, a: Registry, d: Disk, ops: seq<DiskOp>, p: Path)
    requires SafeRun(r, a, d, ops) && Spares(ops, p) && !p.Temp? && p in d
    ensures p in ApplyAll(d, ops)
    decreases |ops|
  {
    if ops != [] {
      assert ops[0] != Remove(p);
      SparedStays(r, a, Apply(d, ops[0]), ops[1..], p);
    }
  }

  lemma {:induction false} SparedDescribed(m: Registry, a: Registry, ops: seq<DiskOp>, o: Digest)
    requires o in m && o in a && m[o] == a[o] && Spares(ops, ManifestFile(o))
    ensures var m' := DescribedAfter(m, a, ops); o in m' && m'[o] == a[o]
    decreases |ops|
  {
    if ops != [] {
      assert ops[0] != Remove(ManifestFile(o));
      SparedDescribed(Described(m, a, ops[0]), a, ops[1..], o);
    }
  }

  /** Every described object was described before or is a registered one. */
  lemma {:induction false} DescribedFrom(m: Registry, a: Registry, ops: seq<DiskOp>, o: Digest)
    requires o in DescribedAfter(m, a, ops)
    ensures (o in m && DescribedAfter(m, a, ops)[o] == m[o]) || (o in a && DescribedAfter(m, a, ops)[o] == a[o])
    decreases |ops|
  {
    if ops != [] {
      DescribedFrom(Described(m, a, ops[0]), a, ops[1..], o);
    }
  }

  // ---- The two writing patterns ------------------------------------------------------------

  /** The content that may be renamed onto a path. */
  ghost predicate Fitting(r: Rules, a: Registry, path: Path, data: Bytes) {
    match path
    case BlockFile(h) => r.content.hash(data) == h && data in r.known
    case ManifestFile(o) => o in a && r.good(o, a[o]) && data == r.text(o, a[o])
    case Temp(_) => false
  }

  /** Writing a file atomically leaves exactly the new content, and no other file changed; over any disk. */
  lemma AtomicWriteLeaves(d: Disk, path: Path, data: Bytes)
    ensures ApplyAll(d, AtomicWrite(d, path, data)) == (d - {Temp(path)})[path := data]
  {
    var ops := AtomicWrite(d, path, data);
    var d2 := Apply(Apply(d, ops[0]), ops[1]);
    var last := [Rename(Temp(path), path)];
    assert last[1..] == [] && ops[1..][1..] == RemoveIfThere(d, path) + last;
    if path in d {
      assert (RemoveIfThere(d, path) + last)[1..] == last;
      var d3 := Apply(d2, Remove(path));
      assert ApplyAll(d2, RemoveIfThere(d, path) + last) == ApplyAll(d3, last);
      assert ApplyAll(d3, last) == Apply(d3, last[0]) == (d - {Temp(path)})[path := data];
    } else {
      assert RemoveIfThere(d, path) + last == last;
      assert ApplyAll(d2, last) == Apply(d2, last[0]) == (d - {Temp(path)})[path := data];
    }
  }

  /** At every crash point the file is as it was before, or has its new content. */
  ghost predicate OldOrNew(d: Disk, path: Path, data: Bytes) {
    var ops := AtomicWrite(d, path, data);
    forall k :: 0 <= k <= |ops| ==>
      var d' := ApplyAll(d, ops[..k]);
      if path in d' then d'[path] == data || (path in d && d'[path] == d[path]) else path !in d
  }

  lemma ApplyFirst(d: Disk, x: DiskOp, rest: seq<DiskOp>)
    ensures ApplyAll(d, [x] + rest) == ApplyAll(Apply(d, x), rest)
  {
    assert ([x] + rest)[1..] == rest;
  }

  lemma ApplySome(d: Disk, x: DiskOp, y: DiskOp, z: DiskOp)
    ensures ApplyAll(d, []) == d && ApplyAll(d, [x]) == Apply(d, x) && ApplyAll(d, [x, y]) == Apply(Apply(d, x), y)
    ensures ApplyAll(d, [x, y, z]) == Apply(Apply(Apply(d, x), y), z)
  {
    var e := Apply(d, x);
    var f, none: seq<DiskOp> := Apply(e, y), [];
    ApplyFirst(d, x, none);
    ApplyFirst(d, x, [y]);
    ApplyFirst(d, x, [y, z]);
    ApplyFirst(e, y, none);
    ApplyFirst(e, y, [z]);
    ApplyFirst(f, z, none);
    assert [x] + none == [x] && [x] + [y] == [x, y] && [x] + [y, z] == [x, y, z] && [y] + none == [y];
    assert [y] + [z] == [y, z] && [z] + none == [z];
  }

  lemma BeforeTheEnd(d: Disk, path: Path, data: Bytes, k: nat)
    requires path !in d && k < |AtomicWrite(d, path, data)|
    ensures path !in ApplyAll(d, AtomicWrite(d, path, data)[..k])
  {
    hide ApplyAll;
    var ops := AtomicWrite(d, path, data);
    ApplySome(d, ops[0], ops[1], ops[2]);
    assert ops == [Create(Temp(path)), Fill(Temp(path), data), Rename(Temp(path), path)];
    assert ops[..k] == [] || ops[..k] == [ops[0]] || ops[..k] == [ops[0], ops[1]];
  }

  lemma GoneInBetween(d: Disk, path: Path, data: Bytes)
    requires path in d
    ensures path !in ApplyAll(d, AtomicWrite(d, path, data)[..3])
  {
    hide ApplyAll;
    var ops := AtomicWrite(d, path, data);
    ApplySome(d, ops[0], ops[1], ops[2]);
    assert ops[..3] == [ops[0], ops[1], ops[2]] && ops[2] == Remove(path);
  }

  /**
   * The write is atomic if and only if the file was not there: an existing file is removed before the new one is
   * renamed into its place, and a crash in between loses both.
   */
  lemma WriteIsAtomicIff(d: Disk, path: Path, data: Bytes)
    ensures OldOrNew(d, path, data) <==> path !in d
  {
    hide ApplyAll;
    var ops := AtomicWrite(d, path, data);
    if path in d {
      GoneInBetween(d, path, data);
    } else {
      forall k | 0 <= k <= |ops|
        ensures path in ApplyAll(d, ops[..k]) ==> ApplyAll(d, ops[..k])[path] == data
      {
        if k < |ops| {
          BeforeTheEnd(d, path, data, k);
        } else {
          assert ops[..k] == ops;
          AtomicWriteLeaves(d, path, data);
        }
      }
    }
  }

  /**
   * Putting a block on any disk, damaged or not: it is refused if and only if the block is not referenced yet and its
   * file holds other bytes. Otherwise one reference is added, a block new to the table is then in its file, a file that
   * was there is not written again, and no other file changes.
   */
  lemma PutOneOutcome(refs: map<Digest, nat>, used: nat, d: Disk, h: Digest, data: Bytes)
    ensures var x, path := PutOne(refs, used, d, h, data), BlockFile(h); var after := ApplyAll(d, x.ops);
      && (x.ok <==> h in refs || path !in d || d[path] == data)
      && (!x.ok ==> x == PutState(refs, used, [], false))
      && (x.ok ==> x.refs == refs[h := (if h in refs then refs[h] else 0) + 1])
      && (x.ok && h !in refs ==> x.used == used + |data| && path in after && after[path] == data)
      && (h in refs ==> x.used == used)
      && (h in refs || path in d ==> x.ops == [] && after == d)
      && forall p :: p != path && p != Temp(path) ==> (p in after <==> p in d) && (p in d ==> after[p] == d[p])
  {
    AtomicWriteLeaves(d, BlockFile(h), data);
  }

  lemma AtomicWriteSafe(r: Rules, a: Registry, d: Disk, path: Path, data: Bytes)
    requires Fitting(r, a, path, data)
    ensures SafeRun(r, a, d, AtomicWrite(d, path, data))
    ensures ApplyAll(d, AtomicWrite(d, path, data)) == (d - {Temp(path)})[path := data]
    ensures forall p :: p != path || p !in d ==> Spares(AtomicWrite(d, path, data), p)
  {
    hide ApplyAll;
    AtomicWriteLeaves(d, path, data);
    var ops := AtomicWrite(d, path, data);
    var d1 := Apply(d, ops[0]);
    var d2 := Apply(d1, ops[1]);
    var last := [Rename(Temp(path), path)];
    assert ops[1..][1..] == RemoveIfThere(d, path) + last;
    if path in d {
      var d3 := Apply(d2, Remove(path));
      assert (RemoveIfThere(d, path) + last)[1..] == last;
      assert last[1..] == [];
      assert SafeRun(r, a, d3, last);
      assert SafeRun(r, a, d2, RemoveIfThere(d, path) + last);
    } else {
      assert RemoveIfThere(d, path) + last == last;
      assert last[1..] == [];
      assert SafeRun(r, a, d2, last);
    }
  }

  lemma RemoveIfThereSafe(r: Rules, a: Registry, d: Disk, path: Path)
    requires !path.Temp?
    ensures SafeRun(r, a, d, RemoveIfThere(d, path))
    ensures ApplyAll(d, RemoveIfThere(d, path)) == d - {path}
  {
    if path in d {
      assert [Remove(path)][1..] == [];
    }
  }
}
