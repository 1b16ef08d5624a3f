// What a program file says that its address space should hold, and how exec.c puts it there piece by piece.
module ProgramImage {
  import opened Basics
  import opened Sv39
  import opened Vm
  import opened UserCopy

  // A program header as exec finds it: unreadable, of another type, or to be loaded.
  datatype Segment = Unreadable | Other | Load(vaddr: nat, memsz: nat, filesz: nat, off: nat, xperm: Perm)

  const WORD32 := 0x1_0000_0000
  const WORD64 := 0x1_0000_0000_0000_0000

  // The bytes that readi finds in the program file.
  function FileBytes(file: Bytes, off: nat, n: nat): (r: Bytes)
    ensures |r| <= n
  {
    if off >= |file| then [] else if off + n <= |file| then file[off..off + n] else file[off..]
  }

  function TopOf(segs: seq<Segment>): nat {
    if segs == [] then 0
    else
      var top, ph := TopOf(segs[..|segs| - 1]), segs[|segs| - 1];
      if ph.Load? && ph.vaddr + ph.memsz > top then ph.vaddr + ph.memsz else top
  }

  // The part of the file that ph puts at address a, if there is one. loadseg takes the offset as a uint.
  predicate Covers(ph: Segment, file: Bytes, a: nat) {
    ph.Load? && ph.vaddr <= a < ph.vaddr + ph.filesz && ph.off % WORD32 + (a - ph.vaddr) < |file|
  }

  // The byte at address a: from the last segment with file contents there, or 0.
  function ImageByte(segs: seq<Segment>, file: Bytes, a: nat): int {
    if segs == [] then 0
    else
      var ph := segs[|segs| - 1];
      if Covers(ph, file, a) then file[ph.off % WORD32 + (a - ph.vaddr)] else ImageByte(segs[..|segs| - 1], file, a)
  }

  function ImageOf(segs: seq<Segment>, file: Bytes, len: nat): (img: Bytes)
    ensures |img| == len
  {
    seq(len, a requires 0 <= a => ImageByte(segs, file, a))
  }

  predicate Proper(segs: seq<Segment>) {
    forall i :: 0 <= i < |segs| && segs[i].Load? ==> segs[i].filesz <= segs[i].memsz
  }

  // What exec asks of a program header, after those of done. uvmalloc's answer 0 for an empty space of size 0 counts
  // as a failure, and so does a file that is too short.
  predicate SegmentOk(done: seq<Segment>, ph: Segment, file: Bytes) {
    match ph
    case Unreadable => false
    case Other => true
    case Load(vaddr, memsz, filesz, off, _) =>
      && filesz <= memsz && vaddr + memsz < WORD64 && vaddr % PGSIZE == 0 && TopOf(done + [ph]) > 0
      && |FileBytes(file, off % WORD32, filesz)| == filesz
  }

  predicate Loadable(segs: seq<Segment>, file: Bytes) {
    forall i :: 0 <= i < |segs| ==> SegmentOk(segs[..i], segs[i], file)
  }

  lemma {:induction false} TopMonotone(segs: seq<Segment>, i: nat)
    requires i <= |segs|
    ensures TopOf(segs[..i]) <= TopOf(segs)
  {
    if i < |segs| {
      TopMonotone(segs[..|segs| - 1], i);
      assert segs[..|segs| - 1][..i] == segs[..i];
    } else {
      assert segs[..i] == segs;
    }
  }

  function Zeros(n: nat): (r: Bytes)
    ensures |r| == n
  {
    seq(n, _ => 0)
  }

  function Overlay(img: Bytes, at: nat, chunk: Bytes): (r: Bytes)
    requires at + |chunk| <= |img|
    ensures |r| == |img|
  {
    img[..at] + chunk + img[at + |chunk|..]
  }

  lemma {:induction false} ImageBeyond(segs: seq<Segment>, file: Bytes, a: nat)
    requires Proper(segs) && a >= TopOf(segs)
    ensures ImageByte(segs, file, a) == 0
  {
    if segs != [] {
      ImageBeyond(segs[..|segs| - 1], file, a);
    }
  }

  // Longer memory is zero until something is loaded there.
  lemma ImageLonger(segs: seq<Segment>, file: Bytes, len: nat, len1: nat)
    requires Proper(segs) && TopOf(segs) <= len <= len1
    ensures ImageOf(segs, file, len) + Zeros(len1 - len) == ImageOf(segs, file, len1)
  {
    forall a: nat | len <= a < len1 ensures ImageByte(segs, file, a) == 0 {
      ImageBeyond(segs, file, a);
    }
  }

  lemma ImageLoaded(segs: seq<Segment>, ph: Segment, file: Bytes, len: nat)
    requires ph.Load? && ph.vaddr + ph.filesz <= len && |FileBytes(file, ph.off % WORD32, ph.filesz)| == ph.filesz
    ensures Overlay(ImageOf(segs, file, len), ph.vaddr, FileBytes(file, ph.off % WORD32, ph.filesz))
      == ImageOf(segs + [ph], file, len)
  {
    var img := Overlay(ImageOf(segs, file, len), ph.vaddr, FileBytes(file, ph.off % WORD32, ph.filesz));
    assert (segs + [ph])[..|segs|] == segs;
    forall a: nat | a < len ensures img[a] == ImageByte(segs + [ph], file, a) {
      hide TopOf;
    }
  }

  lemma ImageOther(segs: seq<Segment>, file: Bytes, len: nat)
    ensures ImageOf(segs + [Other], file, len) == ImageOf(segs, file, len) && TopOf(segs + [Other]) == TopOf(segs)
  {
    assert (segs + [Other])[..|segs|] == segs;
  }

  // Laying one chunk behind another is laying both at once.
  lemma OverlayMore(img: Bytes, at: nat, a: Bytes, b: Bytes)
    requires at + |a| + |b| <= |img|
    ensures Overlay(Overlay(img, at, a), at + |a|, b) == Overlay(img, at, a + b)
  {}

  lemma FileBytesMore(file: Bytes, off: nat, n: nat, m: nat)
    requires |FileBytes(file, off, n)| == n
    ensures FileBytes(file, off, n) + FileBytes(file, off + n, m) == FileBytes(file, off, n + m)
  {}

  lemma FileBytesShort(file: Bytes, off: nat, n: nat, m: nat)
    requires |FileBytes(file, off, n)| < n <= m
    ensures |FileBytes(file, off, m)| < m
  {}

  // ----- in an address space

  // What the user has from address 0 on.
  ghost predicate Shows(t: Tables, s: Space, d: map<nat, Bytes>, img: Bytes) {
    Sized(t, s) && Backed(t, s, d) && ReadsAs(t, s, d, 0, img)
  }

  lemma ShowsLess(t: Tables, s: Space, d: map<nat, Bytes>, img: Bytes, n: nat)
    requires Shows(t, s, d, img) && n <= |img|
    ensures Shows(t, s, d, img[..n])
  {
    forall a: nat | a < n ensures Accessible(t, s, a, false) && img[..n][a] == ByteAt(t, s, d, a) {
      assert Accessible(t, s, a, false);
    }
  }

  // The same bytes, where the pages and the mappings below them are the same.
  lemma ShowsStill(t: Tables, s: Space, d: map<nat, Bytes>, t1: Tables, s1: Space, d1: map<nat, Bytes>, img: Bytes)
    requires Shows(t, s, d, img) && Sized(t1, s1) && Backed(t1, s1, d1)
    requires forall w: nat :: w * PGSIZE < |img| ==> Lookup(t1, s1, w) == Lookup(t, s, w)
    requires forall p :: p in d && p in d1 ==> d1[p] == d[p]
    ensures Shows(t1, s1, d1, img)
  {
    hide Lookup, Sized;
    forall a: nat | a < |img| ensures Accessible(t1, s1, a, false) && img[a] == ByteAt(t1, s1, d1, a) {
      assert Accessible(t, s, a, false);
      assert Lookup(t1, s1, a / PGSIZE) == Lookup(t, s, a / PGSIZE);
    }
  }

  // uvmalloc adds zeros.
  lemma ShowsGrown(t: Tables, s: Space, d: map<nat, Bytes>, t1: Tables, s1: Space, d1: map<nat, Bytes>, n: nat, n1: nat,
                   xperm: Perm, img: Bytes)
    requires Shows(t, s, d, img) && |img| == n * PGSIZE && Sized(t1, s1) && Backed(t1, s1, d1)
    requires Extended(t, s, d, t1, s1, d1, n, n1, UserPerm(xperm)) && n1 < TRAPFRAME
    ensures Shows(t1, s1, d1, img + Zeros((n1 - n) * PGSIZE))
  {
    hide Lookup, Sized, Frames, OwnsRange;
    var img1 := img + Zeros((n1 - n) * PGSIZE);
    forall a: nat | a < |img1| ensures Accessible(t1, s1, a, false) && img1[a] == ByteAt(t1, s1, d1, a) {
      if a < |img| {
        assert Accessible(t, s, a, false);
        assert Lookup(t1, s1, a / PGSIZE) == Lookup(t, s, a / PGSIZE);
      } else {
        assert FreshPage(Lookup(t1, s1, a / PGSIZE).value, UserPerm(xperm), d, d1);
      }
    }
  }

  // A chunk read into the front of page w.
  lemma ShowsPage(t: Tables, s: Space, d: map<nat, Bytes>, img: Bytes, w: nat, p: nat, chunk: Bytes)
    requires Shows(t, s, d, img) && Unshared(t, s) && Lookup(t, s, w).Some? && Lookup(t, s, w).value.perm.u
    requires Lookup(t, s, w).value.ppn == p && |chunk| <= PGSIZE && w * PGSIZE + |chunk| <= |img|
    ensures p in d && |d[p]| == PGSIZE
    ensures Shows(t, s, d[p := chunk + d[p][|chunk|..]], Overlay(img, w * PGSIZE, chunk))
  {
    hide Lookup, Sized;
    var d1, img1 := d[p := chunk + d[p][|chunk|..]], Overlay(img, w * PGSIZE, chunk);
    assert Backed(t, s, d1);
    forall a: nat | a < |img1| ensures Accessible(t, s, a, false) && img1[a] == ByteAt(t, s, d1, a) {
      assert Accessible(t, s, a, false);
      var v := a / PGSIZE;
      if v != w {
        assert !SameFrame(Lookup(t, s, v), Lookup(t, s, w));
      }
      assert a == v * PGSIZE + a % PGSIZE;
    }
  }
}
