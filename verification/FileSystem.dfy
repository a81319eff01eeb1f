/** The read-only file system image: block-mapped file contents, name lookup and
    the byte-copy loop behind every file read
    (student-distrib/file_system.c, student-distrib/lib.c). */
module FileSystem {
  import opened Base

  const NAME_MAX: int := 32
  const BLOCK_SIZE: int := 4096
  const BLOCK_SLOTS: int := 1023

  const RTC_TYPE: int := 0
  const DIRECTORY_TYPE: int := 1
  const REGULAR_TYPE: int := 2

  datatype Dentry = Dentry(name: seq<byte>, fileType: int, inode: int)

  datatype Inode = Inode(length: int, blocks: seq<int>)

  datatype Image = Image(dentries: seq<Dentry>, inodes: seq<Inode>, blocks: seq<seq<byte>>)

  /** Every block slot up to and including the one that holds the end-of-file
      position is valid: `read_data` touches that position too. */
  predicate InodeOk(img: Image, nd: Inode) {
    && |nd.blocks| == BLOCK_SLOTS
    && 0 <= nd.length < BLOCK_SLOTS * BLOCK_SIZE
    && forall k :: 0 <= k <= nd.length / BLOCK_SIZE ==> 0 <= nd.blocks[k] < |img.blocks|
  }

  predicate DentryOk(img: Image, d: Dentry) {
    && |d.name| == NAME_MAX
    && 0 <= d.fileType <= 2
    && 0 <= d.inode < TWO_32
    && (d.fileType == REGULAR_TYPE ==> d.inode < |img.inodes|)
  }

  predicate WellFormed(img: Image) {
    && |img.inodes| < TWO_32
    && (forall b :: b in img.blocks ==> |b| == BLOCK_SIZE)
    && (forall nd :: nd in img.inodes ==> InodeOk(img, nd))
    && (forall d :: d in img.dentries ==> DentryOk(img, d))
  }

  /** The byte at position `i` of a file; `i` may be the end-of-file position. */
  function ByteAt(img: Image, nd: Inode, i: int): byte
    requires WellFormed(img) && nd in img.inodes
    requires 0 <= i <= nd.length
  {
    img.blocks[nd.blocks[i / BLOCK_SIZE]][i % BLOCK_SIZE]
  }

  function Contents(img: Image, nd: Inode): seq<byte>
    requires WellFormed(img) && nd in img.inodes
  {
    seq(nd.length, i requires 0 <= i < nd.length => ByteAt(img, nd, i))
  }

  /** The first `k` data blocks of a file laid end to end. */
  function Blocks(img: Image, nd: Inode, k: nat): (r: seq<byte>)
    requires WellFormed(img) && nd in img.inodes
    requires k <= nd.length / BLOCK_SIZE + 1
    ensures |r| == k * BLOCK_SIZE
  {
    if k == 0 then [] else Blocks(img, nd, k - 1) + img.blocks[nd.blocks[k - 1]]
  }

  lemma {:induction false} BlocksAt(img: Image, nd: Inode, k: nat, i: nat)
    requires WellFormed(img) && nd in img.inodes
    requires k <= nd.length / BLOCK_SIZE + 1
    requires i < k * BLOCK_SIZE && i <= nd.length
    ensures Blocks(img, nd, k)[i] == ByteAt(img, nd, i)
  {
    if i < (k - 1) * BLOCK_SIZE {
      BlocksAt(img, nd, k - 1, i);
    } else {
      assert i / BLOCK_SIZE == k - 1;
    }
  }

  /** A file is its data blocks laid end to end, cut to its length. */
  lemma ContentsAreBlocks(img: Image, nd: Inode)
    requires WellFormed(img) && nd in img.inodes
    ensures var all := Blocks(img, nd, nd.length / BLOCK_SIZE + 1);
            nd.length <= |all| && Contents(img, nd) == all[..nd.length]
  {
    var k := nd.length / BLOCK_SIZE + 1;
    assert nd.length < k * BLOCK_SIZE;
    forall i | 0 <= i < nd.length
      ensures Contents(img, nd)[i] == Blocks(img, nd, k)[i]
    {
      BlocksAt(img, nd, k, i);
    }
  }

  /** How many bytes a read of `n` bytes at `offset` yields. */
  function Available(nd: Inode, offset: int, n: int): int {
    Min(n, nd.length - offset)
  }

  /** `read_data` (student-distrib/file_system.c:143-175). The loop counter and its
      bound are 32-bit unsigned. When the read stops at the end of the file, the
      byte stored there has already been copied behind the data. */
  method ReadData(img: Image, inode: int, offset: int, buf: array<byte>, length: int) returns (ret: int)
    requires WellFormed(img)
    requires 0 <= inode < TWO_32
    requires 0 <= inode < |img.inodes| ==> 0 <= offset <= img.inodes[inode].length
    requires -0x8000_0000 <= length < 0x8000_0000 && length <= buf.Length
    modifies buf
    ensures inode >= |img.inodes| || length < 0 ==> ret == -1 && buf[..] == old(buf[..])
    ensures inode < |img.inodes| && length >= 0 ==>
              var nd := img.inodes[inode];
              && ret == Min(length, nd.length - offset)
              && 0 <= ret <= buf.Length
              && buf[..ret] == Contents(img, nd)[offset..offset + ret]
              && (ret < length ==> buf[ret] == ByteAt(img, nd, nd.length))
              && buf[Min(ret + 1, length)..] == old(buf[..])[Min(ret + 1, length)..]
  {
    if inode >= |img.inodes| || length < 0 {
      return -1;
    }
    var nd := img.inodes[inode];
    assert InodeOk(img, nd);
    var bound := (offset + length) % TWO_32;
    assert bound == offset + length;
    var i := offset;
    var out := 0;
    while i < bound
      invariant offset <= i <= bound && i <= nd.length && out == i - offset
      invariant forall k :: 0 <= k < out ==> buf[k] == ByteAt(img, nd, offset + k)
      invariant forall k :: out <= k < buf.Length ==> buf[k] == old(buf[k])
    {
      var block := nd.blocks[i / BLOCK_SIZE];
      if block >= |img.blocks| {
        assert false;
      }
      buf[out] := img.blocks[block][i % BLOCK_SIZE];
      out := out + 1;
      if i == nd.length {
        return i - offset;
      }
      i := (i + 1) % TWO_32;
    }
    return i - offset;
  }

  /** The part of a memory region that a comparison of at most `n` bytes looks at. */
  function Cut(s: seq<byte>, n: nat): seq<byte> {
    CStr(if n <= |s| then s[..n] else s)
  }

  /** `strncmp` (student-distrib/lib.c:781-795): zero exactly when the two strings
      agree up to a NUL or to the first `n` bytes. */
  method StrNCmp(s1: seq<byte>, s2: seq<byte>, n: nat) returns (r: int)
    requires n <= |s1| || 0 in s1
    requires n <= |s2| || 0 in s2
    ensures r == 0 <==> Cut(s1, n) == Cut(s2, n)
  {
    var i := 0;
    while i < n
      invariant 0 <= i <= n && i <= |s1| && i <= |s2|
      invariant forall k :: 0 <= k < i ==> s1[k] == s2[k] && s1[k] != 0
    {
      assert i < |s1|;
      assert i < |s2|;
      if s1[i] != s2[i] || s1[i] == 0 {
        CutsDiffer(s1, s2, n, i);
        var a: int, b: int := s1[i], s2[i];
        return a - b;
      }
      i := i + 1;
    }
    CutWhole(s1, n);
    CutWhole(s2, n);
    assert s1[..n] == s2[..n];
    return 0;
  }

  lemma CutWhole(s: seq<byte>, n: nat)
    requires n <= |s| && forall k :: 0 <= k < n ==> s[k] != 0
    ensures Cut(s, n) == s[..n]
  {
    CLenUnique(s[..n], n);
  }

  /** Where two strings first differ, or first end, decides the comparison. */
  lemma CutsDiffer(s1: seq<byte>, s2: seq<byte>, n: nat, i: nat)
    requires i < n && i < |s1| && i < |s2|
    requires forall k :: 0 <= k < i ==> s1[k] == s2[k] && s1[k] != 0
    requires s1[i] != s2[i] || s1[i] == 0
    ensures Cut(s1, n) == Cut(s2, n) <==> s1[i] == s2[i]
  {
    var a := if n <= |s1| then s1[..n] else s1;
    var b := if n <= |s2| then s2[..n] else s2;
    if s1[i] == s2[i] {
      CLenUnique(a, i);
      CLenUnique(b, i);
      assert a[..i] == b[..i];
    } else {
      assert CLen(a) >= i && CLen(b) >= i;
      if CLen(a) > i && CLen(b) > i {
        assert CStr(a)[i] == s1[i] && CStr(b)[i] == s2[i];
      } else if s1[i] == 0 {
        CLenUnique(a, i);
        assert CLen(b) > i;
      } else {
        assert CLen(a) > i;
        CLenUnique(b, i);
      }
    }
  }

  predicate Names(d: Dentry, name: seq<byte>) {
    CStr(d.name) == name
  }

  function LookupFrom(dentries: seq<Dentry>, name: seq<byte>, i: nat): (r: Option<nat>)
    requires i <= |dentries|
    ensures r.Some? ==> i <= r.value < |dentries|
    decreases |dentries| - i
  {
    if i == |dentries| then None
    else if Names(dentries[i], name) then Some(i)
    else LookupFrom(dentries, name, i + 1)
  }

  /** Index of the first directory entry with the given name. */
  function Lookup(dentries: seq<Dentry>, name: seq<byte>): (r: Option<nat>)
    ensures r.Some? ==> r.value < |dentries|
  {
    LookupFrom(dentries, name, 0)
  }

  lemma {:induction false} LookupFromMeans(dentries: seq<Dentry>, name: seq<byte>, i: nat)
    requires i <= |dentries|
    ensures var r := LookupFrom(dentries, name, i);
            && (r.Some? ==> Names(dentries[r.value], name))
            && (r.Some? ==> forall k :: i <= k < r.value ==> !Names(dentries[k], name))
            && (r.None? ==> forall k :: i <= k < |dentries| ==> !Names(dentries[k], name))
    decreases |dentries| - i
  {
    if i < |dentries| && !Names(dentries[i], name) {
      LookupFromMeans(dentries, name, i + 1);
    }
  }

  /** What a lookup finds has the name and nothing before it does; if it finds nothing,
      nothing has it. */
  lemma LookupMeans(dentries: seq<Dentry>, name: seq<byte>)
    ensures var r := Lookup(dentries, name);
            && (r.Some? ==> Names(dentries[r.value], name))
            && (r.Some? ==> forall k :: 0 <= k < r.value ==> !Names(dentries[k], name))
            && (r.None? ==> forall k :: 0 <= k < |dentries| ==> !Names(dentries[k], name))
  {
    LookupFromMeans(dentries, name, 0);
  }

  lemma LookupUnique(dentries: seq<Dentry>, name: seq<byte>, k: nat)
    requires k < |dentries| && Names(dentries[k], name)
    requires forall j :: 0 <= j < k ==> !Names(dentries[j], name)
    ensures Lookup(dentries, name) == Some(k)
  {
    LookupMeans(dentries, name);
  }

  lemma CutOfShort(s: seq<byte>, n: nat)
    requires 0 in s && CLen(s) <= n
    ensures Cut(s, n) == CStr(s)
  {
    if n <= |s| {
      CLenUnique(s[..n], CLen(s));
      assert s[..n][..CLen(s)] == s[..CLen(s)];
    }
  }

  /** `read_dentry_by_name` (student-distrib/file_system.c:68-84) on a name held as a
      C string in memory: the first entry whose 32-byte field names it. */
  method ReadDentryByName(img: Image, fname: seq<byte>) returns (r: Option<nat>)
    requires WellFormed(img) && 0 in fname
    ensures CLen(fname) > NAME_MAX ==> r == None
    ensures CLen(fname) <= NAME_MAX ==> r == Lookup(img.dentries, CStr(fname))
  {
    if CLen(fname) > NAME_MAX {
      return None;
    }
    CutOfShort(fname, NAME_MAX);
    var i := 0;
    while i < |img.dentries|
      invariant 0 <= i <= |img.dentries|
      invariant forall k :: 0 <= k < i ==> !Names(img.dentries[k], CStr(fname))
    {
      assert img.dentries[i] in img.dentries;
      var field := img.dentries[i].name;
      assert field[..NAME_MAX] == field;
      var c := StrNCmp(fname, field, NAME_MAX);
      if c == 0 {
        LookupUnique(img.dentries, CStr(fname), i);
        return Some(i);
      }
      i := i + 1;
    }
    LookupMeans(img.dentries, CStr(fname));
    return None;
  }

  const MAGIC: seq<byte> := [0x7f, 0x45, 0x4c, 0x46]

  /** What `check_validity` looks for: a regular file that starts with the executable magic
      number. The byte at the end-of-file position is read too, so three bytes of file are
      enough. */
  predicate Executable(img: Image, d: Dentry)
    requires WellFormed(img) && d in img.dentries
  {
    && d.fileType == REGULAR_TYPE
    && var nd := img.inodes[d.inode];
       && nd.length >= 3
       && ByteAt(img, nd, 0) == 0x7f && ByteAt(img, nd, 1) == 0x45
       && ByteAt(img, nd, 2) == 0x4c && ByteAt(img, nd, 3) == 0x46
  }

  /** What passes for executable: a file that starts with the magic number, and also a file of
      three bytes whose missing fourth happens to lie behind its end. */
  lemma ExecutableExactly(img: Image, d: Dentry)
    requires WellFormed(img) && d in img.dentries && d.fileType == REGULAR_TYPE
    ensures var nd := img.inodes[d.inode];
            Executable(img, d) <==>
              || MAGIC <= Contents(img, nd)
              || (nd.length == 3 && Contents(img, nd) == MAGIC[..3] && ByteAt(img, nd, 3) == MAGIC[3])
  {
    var nd := img.inodes[d.inode];
    var all := Contents(img, nd);
    assert InodeOk(img, nd);
    if nd.length >= 4 {
      assert all[0] == ByteAt(img, nd, 0) && all[1] == ByteAt(img, nd, 1);
      assert all[2] == ByteAt(img, nd, 2) && all[3] == ByteAt(img, nd, 3);
      assert MAGIC <= all <==> all[..4] == MAGIC;
    } else if nd.length == 3 {
      assert all[0] == ByteAt(img, nd, 0) && all[1] == ByteAt(img, nd, 1) && all[2] == ByteAt(img, nd, 2);
      assert MAGIC[..3] == [0x7f, 0x45, 0x4c];
    }
  }

  lemma HeadTells(img: Image, d: Dentry, head: seq<byte>)
    requires WellFormed(img) && d in img.dentries && d.fileType == REGULAR_TYPE && |head| == 4
    requires var nd := img.inodes[d.inode];
             && (forall i :: 0 <= i < 4 && i <= nd.length ==> head[i] == ByteAt(img, nd, i))
             && (nd.length < 3 ==> head[3] == 0)
    ensures head == MAGIC <==> Executable(img, d)
  {
    var nd := img.inodes[d.inode];
    if nd.length >= 3 {
      assert head[0] == ByteAt(img, nd, 0) && head[1] == ByteAt(img, nd, 1);
      assert head[2] == ByteAt(img, nd, 2) && head[3] == ByteAt(img, nd, 3);
    }
  }

  lemma MagicCut(s: seq<byte>)
    requires |s| == 4
    ensures Cut(s, 4) == Cut(MAGIC, 4) <==> s == MAGIC
  {
    CutWhole(MAGIC, 4);
    assert MAGIC[..4] == MAGIC && s[..4] == s;
    if s != MAGIC && |CStr(s)| == 4 {
      assert CStr(s) == s;
    }
  }

  lemma ContentsAt(img: Image, nd: Inode, count: nat, buf: seq<byte>)
    requires WellFormed(img) && nd in img.inodes && count <= |buf| && count <= nd.length
    requires buf[..count] == Contents(img, nd)[0..0 + count]
    ensures forall i :: 0 <= i < count ==> buf[i] == ByteAt(img, nd, i)
  {
    forall i | 0 <= i < count
      ensures buf[i] == ByteAt(img, nd, i)
    {
      assert buf[i] == buf[..count][i] == Contents(img, nd)[0..0 + count][i] == Contents(img, nd)[i];
    }
  }

  /** The four bytes that `check_validity` compares. */
  method ReadHead(img: Image, inode: nat) returns (head: seq<byte>)
    requires WellFormed(img) && inode < |img.inodes| && inode < TWO_32
    ensures |head| == 4
    ensures var nd := img.inodes[inode];
            && (forall i :: 0 <= i < 4 && i <= nd.length ==> head[i] == ByteAt(img, nd, i))
            && (nd.length < 3 ==> head[3] == 0)
  {
    var nd := img.inodes[inode];
    assert InodeOk(img, nd);
    var buf := new byte[4](i => 0);
    ghost var blank := buf[..];
    var count := ReadData(img, inode, 0, buf, 4);
    head := buf[..];
    assert buf[..count] == head[..count];
    ContentsAt(img, nd, count, head);
    if nd.length < 3 {
      assert blank[3] == 0;
      assert head[count + 1..] == blank[count + 1..];
      assert head[3] == head[count + 1..][3 - (count + 1)];
      assert blank[3] == blank[count + 1..][3 - (count + 1)];
    }
  }

  /** `check_validity` (student-distrib/file_system.c:240-253). Its buffer is taken to start
      as zeros, which matters to files of fewer than three bytes only. */
  method CheckValidity(img: Image, k: nat) returns (ok: bool)
    requires WellFormed(img) && k < |img.dentries|
    ensures ok <==> Executable(img, img.dentries[k])
  {
    var d := img.dentries[k];
    assert DentryOk(img, d);
    if d.fileType != REGULAR_TYPE {
      return false;
    }
    var head := ReadHead(img, d.inode);
    MagicCut(head);
    HeadTells(img, d, head);
    var c := StrNCmp(head, MAGIC, 4);
    return c == 0;
  }
}
