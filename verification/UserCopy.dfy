// copyin, copyout and copyinstr of kernel/vm.c: page-sized chunks that amount to copying byte by byte.
module UserCopy {
  import opened Basics
  import opened Sv39
  import opened Vm

  // User code may read va, or write it.
  ghost predicate Accessible(t: Tables, s: Space, va: nat, write: bool)
    requires Sized(t, s)
  {
    && va < MAXVA && Lookup(t, s, va / PGSIZE).Some? && Lookup(t, s, va / PGSIZE).value.perm.u
    && (write ==> Lookup(t, s, va / PGSIZE).value.perm.w)
  }

  ghost predicate AllAccessible(t: Tables, s: Space, lo: nat, hi: nat, write: bool)
    requires Sized(t, s)
  {
    forall a: nat {:trigger Accessible(t, s, a, write)} :: lo <= a < hi ==> Accessible(t, s, a, write)
  }

  // User pages are backed by whole data pages.
  ghost predicate Backed(t: Tables, s: Space, d: map<nat, Bytes>)
    requires Sized(t, s)
  {
    forall v: nat {:trigger Lookup(t, s, v)} :: Lookup(t, s, v).Some? && Lookup(t, s, v).value.perm.u ==>
      Lookup(t, s, v).value.ppn in d && |d[Lookup(t, s, v).value.ppn]| == PGSIZE
  }

  // Translate one address and read the byte there.
  ghost function ByteAt(t: Tables, s: Space, d: map<nat, Bytes>, va: nat): int
    requires Sized(t, s) && Backed(t, s, d) && Accessible(t, s, va, false)
  {
    d[Lookup(t, s, va / PGSIZE).value.ppn][va % PGSIZE]
  }

  // bs is what the user has from va on.
  ghost predicate ReadsAs(t: Tables, s: Space, d: map<nat, Bytes>, va: nat, bs: Bytes)
    requires Sized(t, s) && Backed(t, s, d)
  {
    && AllAccessible(t, s, va, va + |bs|, false)
    && forall a: nat {:trigger Accessible(t, s, a, false)} ::
         va <= a < va + |bs| ==> Accessible(t, s, a, false) && bs[a - va] == ByteAt(t, s, d, a)
  }

  // Translate one address and write the byte there.
  ghost function PutByte(t: Tables, s: Space, d: map<nat, Bytes>, va: nat, b: int): (r: map<nat, Bytes>)
    requires Sized(t, s) && Backed(t, s, d) && Accessible(t, s, va, true)
    ensures Backed(t, s, r) && r.Keys == d.Keys
  {
    PutAt(d, Lookup(t, s, va / PGSIZE).value.ppn, va % PGSIZE, b)
  }

  ghost function PutAt(d: map<nat, Bytes>, p: nat, o: nat, b: int): (r: map<nat, Bytes>)
    requires p in d && o < |d[p]|
  {
    d[p := d[p][o := b]]
  }

  // Byte after byte, from va on.
  ghost function PutBytes(t: Tables, s: Space, d: map<nat, Bytes>, va: nat, bs: Bytes): (r: map<nat, Bytes>)
    requires Sized(t, s) && Backed(t, s, d) && AllAccessible(t, s, va, va + |bs|, true)
    ensures Backed(t, s, r) && r.Keys == d.Keys
  {
    if bs == [] then d
    else
      var n := |bs| - 1;
      assert Accessible(t, s, va + n, true);
      PutByte(t, s, PutBytes(t, s, d, va, bs[..n]), va + n, bs[n])
  }

  // walk and the permission checks, as walkaddr and copyout make them: None stands for 0.
  method Walkaddr(mem: Memory, va: nat, root: nat, write: bool, ghost s: Space) returns (r: Option<nat>)
    requires mem.Valid() && WellFormed(mem.tables, s) && s.root == root
    modifies mem`freelist, mem`tables
    ensures mem.Valid() && mem.tables == old(mem.tables) && mem.freelist == old(mem.freelist)
    ensures r.Some? <==> Accessible(mem.tables, s, va, write)
    ensures r.Some? ==> r.value == Lookup(mem.tables, s, va / PGSIZE).value.ppn
  {
    hide Separate, Sized, RootOk, MidOk, BottomOk, Lookup;
    if va >= MAXVA {
      return None;
    }
    var pte, _ := mem.Walk(va, false, root, s);
    if pte.None? {
      NoTable(mem.tables, s, va / PGSIZE);
      return None;
    }
    ReadBottom(mem.tables, s, va / PGSIZE);
    var e := mem.tables[pte.value.0][pte.value.1];
    if !e.v || !e.perm.u || (write && !e.perm.w) {
      return None;
    }
    return Some(e.ppn);
  }

  lemma NoTable(t: Tables, s: Space, v: nat)
    requires Sized(t, s) && Mid(v) !in s.l0
    ensures Lookup(t, s, v) == None
  {}

  // The bytes of one page from va on.
  lemma SamePage(t: Tables, s: Space, va: nat, n: nat, write: bool)
    requires Sized(t, s) && va % PGSIZE + n <= PGSIZE
    requires Accessible(t, s, va, write)
    ensures AllAccessible(t, s, va, va + n, write)
    ensures forall a: nat :: va <= a < va + n ==> a / PGSIZE == va / PGSIZE && a % PGSIZE == va % PGSIZE + (a - va)
  {
    hide Lookup;
  }

  // A chunk from the page of src continues what has been read.
  lemma ReadChunk(t: Tables, s: Space, d: map<nat, Bytes>, va: nat, dst: Bytes, p: nat, m: nat)
    requires Sized(t, s) && Backed(t, s, d) && ReadsAs(t, s, d, va, dst)
    requires Accessible(t, s, va + |dst|, false) && Lookup(t, s, (va + |dst|) / PGSIZE).value.ppn == p
    requires (va + |dst|) % PGSIZE + m <= PGSIZE
    ensures p in d && |d[p]| == PGSIZE
    ensures ReadsAs(t, s, d, va, dst + d[p][(va + |dst|) % PGSIZE..(va + |dst|) % PGSIZE + m])
  {
    var src := va + |dst|;
    SamePage(t, s, src, m, false);
    hide Lookup;
  }

  // copyin: dst is what has been written to the kernel's buffer.
  method Copyin(mem: Memory, root: nat, srcva: nat, len: nat, ghost s: Space) returns (r: int, dst: Bytes)
    requires mem.Valid() && WellFormed(mem.tables, s) && s.root == root && Backed(mem.tables, s, mem.data)
    modifies mem`freelist, mem`tables
    ensures mem.Valid() && mem.tables == old(mem.tables) && mem.freelist == old(mem.freelist)
    ensures r == 0 <==> AllAccessible(mem.tables, s, srcva, srcva + len, false)
    ensures r == 0 || r == -1
    ensures r == 0 ==> |dst| == len
    ensures |dst| <= len && ReadsAs(mem.tables, s, mem.data, srcva, dst)
  {
    hide Separate, RootOk, MidOk, BottomOk, Sized, Lookup;
    dst := [];
    var src, n := srcva, len;
    while n > 0
      invariant 0 <= n == len - |dst| && (n > 0 ==> src == srcva + |dst|)
      invariant mem.Valid() && mem.tables == old(mem.tables) && mem.freelist == old(mem.freelist)
      invariant WellFormed(mem.tables, s)
      invariant Backed(mem.tables, s, mem.data) && ReadsAs(mem.tables, s, mem.data, srcva, dst)
    {
      var va0 := src / PGSIZE * PGSIZE;
      var pa := Walkaddr(mem, va0, root, false, s);
      assert Accessible(mem.tables, s, va0, false) <==> Accessible(mem.tables, s, src, false);
      if pa.None? {
        return -1, dst;
      }
      var m := PGSIZE - (src - va0);
      if m > n {
        m := n;
      }
      ReadChunk(mem.tables, s, mem.data, srcva, dst, pa.value, m);
      dst := dst + mem.data[pa.value][src - va0..src - va0 + m];
      n := n - m;
      src := va0 + PGSIZE;
    }
    r := 0;
  }

  // memmove of chunk to offset off of page p.
  ghost function PutChunk(d: map<nat, Bytes>, p: nat, off: nat, chunk: Bytes): (r: map<nat, Bytes>)
    requires p in d && off + |chunk| <= |d[p]|
    ensures r.Keys == d.Keys && |r[p]| == |d[p]|
  {
    d[p := d[p][..off] + chunk + d[p][off + |chunk|..]]
  }

  lemma PutChunkOne(d: map<nat, Bytes>, p: nat, off: nat, chunk: Bytes)
    requires p in d && off + |chunk| <= |d[p]|
    ensures chunk == [] ==> PutChunk(d, p, off, chunk) == d
    ensures chunk != [] ==> var m := |chunk| - 1;
      PutAt(PutChunk(d, p, off, chunk[..m]), p, off + m, chunk[m]) == PutChunk(d, p, off, chunk)
  {
    if chunk != [] {
      var m := |chunk| - 1;
      assert (d[p][..off] + chunk[..m] + d[p][off + m..])[off + m := chunk[m]]
        == d[p][..off] + chunk + d[p][off + |chunk|..];
    } else {
      assert d[p][..off] + chunk + d[p][off..] == d[p];
    }
  }

  // memmove within the page of va + |bs| is a byte-by-byte copy.
  lemma {:induction false} WriteChunk(t: Tables, s: Space, d: map<nat, Bytes>, va: nat, bs: Bytes, chunk: Bytes, p: nat,
      off: nat)
    requires Sized(t, s) && Backed(t, s, d) && AllAccessible(t, s, va, va + |bs|, true)
    requires Accessible(t, s, va + |bs|, true) && Lookup(t, s, (va + |bs|) / PGSIZE).value.ppn == p
    requires off == (va + |bs|) % PGSIZE && off + |chunk| <= PGSIZE
    ensures AllAccessible(t, s, va, va + |bs + chunk|, true)
    ensures var d1 := PutBytes(t, s, d, va, bs);
      && p in d1 && |d1[p]| == PGSIZE
      && PutBytes(t, s, d, va, bs + chunk) == PutChunk(d1, p, off, chunk)
  {
    hide Lookup, AllAccessible, PutChunk, PutAt, PutBytes, Backed;
    ChunkAccessible(t, s, va, |bs|, |chunk|);
    if chunk == [] {
      NoChunk(t, s, d, va, bs, p, off);
      assert bs + chunk == bs;
    } else {
      var m := |chunk| - 1;
      WriteChunk(t, s, d, va, bs, chunk[..m], p, off);
      PutChunkOne(PutBytes(t, s, d, va, bs), p, off, chunk);
      SplitLast(bs, chunk);
      WriteOne(t, s, d, va, bs + chunk[..m], chunk[m], p, off + m);
    }
  }

  lemma NoChunk(t: Tables, s: Space, d: map<nat, Bytes>, va: nat, bs: Bytes, p: nat, off: nat)
    requires Sized(t, s) && Backed(t, s, d) && AllAccessible(t, s, va, va + |bs|, true)
    requires Accessible(t, s, va + |bs|, true) && Lookup(t, s, (va + |bs|) / PGSIZE).value.ppn == p
    requires off <= PGSIZE
    ensures var d1 := PutBytes(t, s, d, va, bs);
      p in d1 && |d1[p]| == PGSIZE && d1 == PutChunk(d1, p, off, [])
  {
    hide Lookup, AllAccessible, PutChunk, PutAt, PutBytes;
    PutChunkOne(PutBytes(t, s, d, va, bs), p, off, []);
  }

  lemma WriteOne(t: Tables, s: Space, d: map<nat, Bytes>, va: nat, bs: Bytes, c: int, p: nat, o: nat)
    requires Sized(t, s) && Backed(t, s, d) && AllAccessible(t, s, va, va + |bs| + 1, true)
    requires Accessible(t, s, va + |bs|, true) ==> Lookup(t, s, (va + |bs|) / PGSIZE).value.ppn == p
    requires (va + |bs|) % PGSIZE == o
    ensures var d1 := PutBytes(t, s, d, va, bs);
      p in d1 && o < |d1[p]| && PutBytes(t, s, d, va, bs + [c]) == PutAt(d1, p, o, c)
  {
    hide Lookup, PutAt;
    assert Accessible(t, s, va + |bs|, true);
    assert (bs + [c])[..|bs|] == bs;
  }

  lemma ChunkAccessible(t: Tables, s: Space, va: nat, n: nat, m: nat)
    requires Sized(t, s) && AllAccessible(t, s, va, va + n, true)
    requires Accessible(t, s, va + n, true) && (va + n) % PGSIZE + m <= PGSIZE
    ensures AllAccessible(t, s, va, va + n + m, true)
    ensures m > 0 ==>
      AllAccessible(t, s, va, va + n + (m - 1), true) && (va + n + (m - 1)) / PGSIZE == (va + n) / PGSIZE
    ensures m > 0 ==> (va + n + (m - 1)) % PGSIZE == (va + n) % PGSIZE + (m - 1)
  {
    SamePage(t, s, va + n, m, true);
    hide Lookup;
  }

  lemma SplitLast(bs: Bytes, chunk: Bytes)
    requires chunk != []
    ensures bs + chunk == (bs + chunk[..|chunk| - 1]) + [chunk[|chunk| - 1]]
  {}

  // copyout: k bytes of src have been written when it returns.
  method Copyout(mem: Memory, root: nat, dstva: nat, src: Bytes, ghost s: Space) returns (r: int, ghost k: nat)
    requires mem.Valid() && WellFormed(mem.tables, s) && s.root == root && Backed(mem.tables, s, mem.data)
    modifies mem
    ensures mem.Valid() && mem.tables == old(mem.tables) && mem.freelist == old(mem.freelist)
    ensures r == 0 <==> AllAccessible(mem.tables, s, dstva, dstva + |src|, true)
    ensures r == 0 || r == -1
    ensures r == 0 ==> k == |src|
    ensures k <= |src| && AllAccessible(mem.tables, s, dstva, dstva + k, true)
    ensures mem.data == PutBytes(mem.tables, s, old(mem.data), dstva, src[..k])
  {
    hide Separate, RootOk, MidOk, BottomOk, Sized, Lookup, PutBytes, PutByte;
    k := 0;
    PutNothing(mem.tables, s, mem.data, dstva);
    var va, at, n := dstva, 0, |src|;
    while n > 0
      invariant 0 <= n == |src| - k && at == k && (n > 0 ==> va == dstva + k)
      invariant mem.Valid() && mem.tables == old(mem.tables) && mem.freelist == old(mem.freelist)
      invariant WellFormed(mem.tables, s) && Backed(mem.tables, s, old(mem.data))
      invariant AllAccessible(mem.tables, s, dstva, dstva + k, true)
      invariant mem.data == PutBytes(mem.tables, s, old(mem.data), dstva, src[..k])
    {
      var va0 := va / PGSIZE * PGSIZE;
      var pa := Walkaddr(mem, va0, root, true, s);
      assert Accessible(mem.tables, s, va0, true) <==> Accessible(mem.tables, s, va, true);
      if pa.None? {
        return -1, k;
      }
      var m := PGSIZE - (va - va0);
      if m > n {
        m := n;
      }
      WriteChunk(mem.tables, s, old(mem.data), dstva, src[..k], src[k..k + m], pa.value, va - va0);
      assert src[..k] + src[k..k + m] == src[..k + m];
      var page := mem.data[pa.value];
      mem.data := mem.data[pa.value := page[..va - va0] + src[at..at + m] + page[va - va0 + m..]];
      n, at, k := n - m, at + m, k + m;
      va := va0 + PGSIZE;
    }
    r := 0;
  }

  lemma PutNothing(t: Tables, s: Space, d: map<nat, Bytes>, va: nat)
    requires Sized(t, s) && Backed(t, s, d)
    ensures PutBytes(t, s, d, va, []) == d
  {}

  // No two user pages share a physical page.
  ghost predicate Unshared(t: Tables, s: Space)
    requires Sized(t, s)
  {
    forall v: nat, w: nat {:trigger Lookup(t, s, v), Lookup(t, s, w)} ::
      SameFrame(Lookup(t, s, v), Lookup(t, s, w)) ==> v == w
  }

  predicate SameFrame(e: Option<Pte>, f: Option<Pte>) {
    e.Some? && f.Some? && e.value.perm.u && f.value.perm.u && e.value.ppn == f.value.ppn
  }

  lemma OneByte(t: Tables, s: Space, d: map<nat, Bytes>, va: nat, b: int, a: nat)
    requires Sized(t, s) && Backed(t, s, d) && Unshared(t, s) && Accessible(t, s, va, true)
      && Accessible(t, s, a, false)
    ensures ByteAt(t, s, PutByte(t, s, d, va, b), a) == if a == va then b else ByteAt(t, s, d, a)
  {
    hide Lookup;
    assert a == va || a / PGSIZE != va / PGSIZE || a % PGSIZE != va % PGSIZE;
  }

  // What copyout leaves behind, byte by byte, as copyin would read it.
  lemma {:induction false} PutThenRead(t: Tables, s: Space, d: map<nat, Bytes>, va: nat, bs: Bytes, a: nat)
    requires Sized(t, s) && Backed(t, s, d) && Unshared(t, s)
    requires AllAccessible(t, s, va, va + |bs|, true) && Accessible(t, s, a, false)
    ensures ByteAt(t, s, PutBytes(t, s, d, va, bs), a) == if va <= a < va + |bs| then bs[a - va] else ByteAt(t, s, d, a)
  {
    hide Lookup;
    if bs != [] {
      var n := |bs| - 1;
      PutThenRead(t, s, d, va, bs[..n], a);
      assert Accessible(t, s, va + n, true);
      OneByte(t, s, PutBytes(t, s, d, va, bs[..n]), va + n, bs[n], a);
    }
  }

  // A successful copyout is read back by copyin.
  lemma CopyRoundTrip(t: Tables, s: Space, d: map<nat, Bytes>, va: nat, bs: Bytes)
    requires Sized(t, s) && Backed(t, s, d) && Unshared(t, s) && AllAccessible(t, s, va, va + |bs|, true)
    ensures ReadsAs(t, s, PutBytes(t, s, d, va, bs), va, bs)
  {
    hide Lookup, PutBytes;
    forall a: nat | va <= a < va + |bs|
      ensures Accessible(t, s, a, false) && bs[a - va] == ByteAt(t, s, PutBytes(t, s, d, va, bs), a)
    {
      assert Accessible(t, s, a, true);
      PutThenRead(t, s, d, va, bs, a);
    }
  }

  // Bytes elsewhere stay.
  lemma ReadsStill(t: Tables, s: Space, d: map<nat, Bytes>, va: nat, bs: Bytes, from: nat, read: Bytes)
    requires Sized(t, s) && Backed(t, s, d) && Unshared(t, s) && AllAccessible(t, s, va, va + |bs|, true)
    requires ReadsAs(t, s, d, from, read) && (va + |bs| <= from || from + |read| <= va)
    ensures ReadsAs(t, s, PutBytes(t, s, d, va, bs), from, read)
  {
    hide Lookup, PutBytes;
    forall a: nat | from <= a < from + |read|
      ensures Accessible(t, s, a, false) && read[a - from] == ByteAt(t, s, PutBytes(t, s, d, va, bs), a)
    {
      assert Accessible(t, s, a, false);
      PutThenRead(t, s, d, va, bs, a);
    }
  }

  // The string at va that ends within max bytes, if there is one.
  ghost predicate StringAt(t: Tables, s: Space, d: map<nat, Bytes>, va: nat, max: nat, bs: Bytes)
    requires Sized(t, s) && Backed(t, s, d)
  {
    && 0 < |bs| <= max && ReadsAs(t, s, d, va, bs)
    && bs[|bs| - 1] == 0 && forall i :: 0 <= i < |bs| - 1 ==> bs[i] != 0
  }

  // copyinstr: dst is what has been written; it never exceeds max bytes.
  method Copyinstr(mem: Memory, root: nat, srcva: nat, max: nat, ghost s: Space) returns (r: int, dst: Bytes)
    requires mem.Valid() && WellFormed(mem.tables, s) && s.root == root && Backed(mem.tables, s, mem.data)
    modifies mem`freelist, mem`tables
    ensures mem.Valid() && mem.tables == old(mem.tables) && mem.freelist == old(mem.freelist)
    ensures r == 0 || r == -1
    ensures r == 0 ==> StringAt(mem.tables, s, mem.data, srcva, max, dst)
    ensures r == -1 ==> forall bs :: !StringAt(mem.tables, s, mem.data, srcva, max, bs)
    ensures |dst| <= max && ReadsAs(mem.tables, s, mem.data, srcva, dst)
  {
    hide Separate, RootOk, MidOk, BottomOk, Sized, Lookup;
    dst := [];
    var gotNull, src, left := false, srcva, max;
    while !gotNull && left > 0
      invariant mem.Valid() && mem.tables == old(mem.tables) && mem.freelist == old(mem.freelist)
      invariant WellFormed(mem.tables, s)
      invariant Backed(mem.tables, s, mem.data) && ReadsAs(mem.tables, s, mem.data, srcva, dst)
      invariant gotNull ==> StringAt(mem.tables, s, mem.data, srcva, max, dst)
      invariant 0 <= left <= max
      invariant !gotNull ==> left == max - |dst| && (left > 0 ==> src == srcva + |dst|) && 0 !in dst
      decreases !gotNull, left
    {
      var va0 := src / PGSIZE * PGSIZE;
      var pa := Walkaddr(mem, va0, root, false, s);
      assert Accessible(mem.tables, s, va0, false) <==> Accessible(mem.tables, s, src, false);
      if pa.None? {
        NoString(mem.tables, s, mem.data, srcva, max, dst);
        return -1, dst;
      }
      var n := PGSIZE - (src - va0);
      if n > left {
        n := left;
      }
      var p, page := src - va0, pa.value;
      ghost var all := n;
      while n > 0
        invariant 0 <= n <= all && !gotNull && p == src - va0 + (all - n) && p + n <= PGSIZE
        invariant src / PGSIZE * PGSIZE == va0 && srcva + |dst| == src + (all - n)
        invariant left == max - |dst| && n <= left && 0 !in dst
        invariant Accessible(mem.tables, s, src, false) && Lookup(mem.tables, s, src / PGSIZE).value.ppn == page
        invariant ReadsAs(mem.tables, s, mem.data, srcva, dst)
        invariant page in mem.data && |mem.data[page]| == PGSIZE
        modifies {}
      {
        SamePage(mem.tables, s, src, all, false);
        ReadChunk(mem.tables, s, mem.data, srcva, dst, page, 1);
        assert mem.data[page][p..p + 1] == [mem.data[page][p]];
        if mem.data[page][p] == 0 {
          dst := dst + [0];
          gotNull := true;
          break;
        } else {
          dst := dst + [mem.data[page][p]];
        }
        n, left, p := n - 1, left - 1, p + 1;
      }
      src := va0 + PGSIZE;
    }
    if gotNull {
      return 0, dst;
    } else {
      NoString(mem.tables, s, mem.data, srcva, max, dst);
      return -1, dst;
    }
  }

  // No string: max bytes without a NUL, or an inaccessible byte before any NUL.
  lemma NoString(t: Tables, s: Space, d: map<nat, Bytes>, va: nat, max: nat, dst: Bytes)
    requires Sized(t, s) && Backed(t, s, d) && ReadsAs(t, s, d, va, dst) && 0 !in dst
    requires |dst| == max || !Accessible(t, s, va + |dst|, false)
    ensures forall bs :: !StringAt(t, s, d, va, max, bs)
  {
    forall bs ensures !StringAt(t, s, d, va, max, bs) {
      hide Lookup, Sized, Backed;
      if |dst| < |bs| {
        assert Accessible(t, s, va + |dst|, false) || !ReadsAs(t, s, d, va, bs);
      } else if 0 < |bs| && ReadsAs(t, s, d, va, bs) {
        assert Accessible(t, s, va + |bs| - 1, false);
        assert bs[|bs| - 1] == dst[|bs| - 1];
      }
    }
  }
}
