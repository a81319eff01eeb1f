/** One process's file descriptors: open, read and close on its eight-entry file array
    (student-distrib/system_call.c:205-310, student-distrib/file_system.c:264-393). */
module Descriptors {
  import opened Base
  import opened FileSystem

  const FILE_LIMIT: int := 8
  const STD_RANGE: int := 2

  datatype Kind = Terminal | Rtc | Directory | Regular

  /** An entry of the file array. `log` is history kept by the model alone: the data
      handed out by each successful read since the entry was opened. */
  datatype Fd = Fd(flags: bool, kind: Kind, inode: int, position: int, log: seq<seq<byte>>)

  /** What a system call hands back to its process. */
  datatype Reply = Code(value: int) | Data(bytes: seq<byte>) | Blocks

  predicate Sized(files: seq<Fd>) {
    |files| == FILE_LIMIT
  }

  /** The file array that `create_pcb` leaves (student-distrib/process.c:55-62): standard
      input and output open on the terminal, the rest closed. */
  function Fresh(files: seq<Fd>): (r: seq<Fd>)
    requires Sized(files)
    ensures Sized(r)
  {
    seq(FILE_LIMIT, i requires 0 <= i < FILE_LIMIT =>
      if i < STD_RANGE then files[i].(flags := true, kind := Terminal, position := 0, log := [])
      else files[i].(flags := false, position := 0, log := []))
  }

  /** First closed entry from `from` on, or 8. */
  function FreeFrom(files: seq<Fd>, from: nat): (r: nat)
    requires Sized(files) && from <= FILE_LIMIT
    ensures from <= r <= FILE_LIMIT
    ensures r < FILE_LIMIT ==> !files[r].flags
    ensures forall k :: from <= k < r ==> files[k].flags
    decreases FILE_LIMIT - from
  {
    if from == FILE_LIMIT || !files[from].flags then from else FreeFrom(files, from + 1)
  }

  function KindOf(fileType: int): Kind {
    if fileType == RTC_TYPE then Rtc else if fileType == DIRECTORY_TYPE then Directory else Regular
  }

  /** Position an opened entry starts at; for the real-time clock the field holds a ratio. */
  function StartPosition(k: Kind): int {
    if k == Rtc then 256 else 0
  }

  /** `open` (student-distrib/system_call.c:251-289) on a name of at most 32 bytes. */
  function Open(img: Image, files: seq<Fd>, name: seq<byte>): (r: (seq<Fd>, int))
    requires WellFormed(img) && Sized(files)
    ensures Sized(r.0)
  {
    var fd: int := FreeFrom(files, STD_RANGE);
    if fd == FILE_LIMIT || |name| > NAME_MAX then (files, -1)
    else
      match Lookup(img.dentries, name)
      case None => (files, -1)
      case Some(k) =>
        var d := img.dentries[k];
        var kind := KindOf(d.fileType);
        var inode := if kind == Regular then d.inode else 0;
        (files[fd := Fd(true, kind, inode, StartPosition(kind), [])], fd)
  }

  /** `close` (student-distrib/system_call.c:300-310): standard input and output stay
      open; only a regular file's position is reset. */
  function Close(files: seq<Fd>, fd: int): (r: (seq<Fd>, int))
    requires Sized(files)
    ensures Sized(r.0)
  {
    if fd < STD_RANGE || fd >= FILE_LIMIT || !files[fd].flags then (files, -1)
    else
      var f := files[fd].(flags := false);
      (files[fd := if f.kind == Regular then f.(position := 0, log := []) else f], 0)
  }

  /** The file array after closing every entry below `n`, as `halt` does. */
  function CloseBelow(files: seq<Fd>, n: nat): (r: seq<Fd>)
    requires Sized(files) && n <= FILE_LIMIT
    ensures Sized(r)
  {
    if n == 0 then files else Close(CloseBelow(files, n - 1), n - 1).0
  }

  /** `read` (student-distrib/system_call.c:205-216) with the file-specific reads behind
      it. Reads of the keyboard and of the clock block; their data is not modelled here. */
  function Read(img: Image, files: seq<Fd>, fd: int, n: int): (r: (seq<Fd>, Reply))
    requires WellFormed(img) && Sized(files) && Consistent(img, files)
    ensures Sized(r.0)
  {
    if fd < 0 || fd >= FILE_LIMIT || n < 0 || !files[fd].flags then (files, Code(-1))
    else
      var f := files[fd];
      match f.kind
      case Terminal => (files, if fd == 0 then Blocks else Code(-1))
      case Rtc => (files, if fd < STD_RANGE then Code(-1) else Blocks)
      case Directory =>
        if f.position == |img.dentries| then (files, Data([]))
        else
          var name := CStr(img.dentries[f.position].name);
          (files[fd := f.(position := f.position + 1, log := f.log + [name])], Data(name))
      case Regular =>
        if fd < STD_RANGE then (files, Code(-1))
        else
          var nd := img.inodes[f.inode];
          var count := Available(nd, f.position, n);
          var bytes := Contents(img, nd)[f.position..f.position + count];
          (files[fd := f.(position := f.position + count, log := f.log + [bytes])], Data(bytes))
  }

  /** An open regular file has handed out exactly the first `position` bytes of its
      contents, and never stands past its end; an open directory, its first names. */
  predicate FdOk(img: Image, f: Fd)
    requires WellFormed(img)
  {
    f.flags ==>
      match f.kind
      case Regular =>
        && 0 <= f.inode < |img.inodes|
        && 0 <= f.position <= img.inodes[f.inode].length
        && Flatten(f.log) == Contents(img, img.inodes[f.inode])[..f.position]
      case Directory =>
        && 0 <= f.position <= |img.dentries| && |f.log| == f.position
        && (forall k :: 0 <= k < f.position ==> f.log[k] == CStr(img.dentries[k].name))
      case Terminal => true
      case Rtc => true
  }

  predicate Consistent(img: Image, files: seq<Fd>)
    requires WellFormed(img)
  {
    forall i :: 0 <= i < |files| ==> FdOk(img, files[i])
  }

  lemma FreshConsistent(img: Image, files: seq<Fd>)
    requires WellFormed(img) && Sized(files)
    ensures Consistent(img, Fresh(files))
  {
  }

  /** Standard input and output are open, on the terminal. */
  predicate Standard(files: seq<Fd>) {
    Sized(files) && forall i :: 0 <= i < STD_RANGE ==> files[i].flags && files[i].kind == Terminal
  }

  /** Nothing else is open. */
  predicate Shut(files: seq<Fd>) {
    Sized(files) && forall i :: STD_RANGE <= i < FILE_LIMIT ==> !files[i].flags
  }

  /** Whatever the slot's last owner left, a new process has standard input and output open
      on the terminal and nothing else. */
  lemma FreshStandard(files: seq<Fd>)
    requires Sized(files)
    ensures Standard(Fresh(files)) && Shut(Fresh(files))
  {
  }

  /** No system call takes standard input and output away or moves them; the keyboard read
      blocks, and reading the output fails. */
  lemma StandardStays(img: Image, files: seq<Fd>, name: seq<byte>, fd: int, n: int)
    requires WellFormed(img) && Consistent(img, files) && Standard(files)
    ensures Standard(Open(img, files, name).0) && Standard(Close(files, fd).0) && Standard(Read(img, files, fd, n).0)
    ensures Read(img, files, 0, n) == (files, if n < 0 then Code(-1) else Blocks)
    ensures Read(img, files, 1, n) == (files, Code(-1))
  {
  }

  /** What closing means: it succeeds exactly for an open descriptor from 2 on; then that
      one is closed, a regular file's position is back at its start, and no other changes. */
  lemma CloseMeans(files: seq<Fd>, fd: int)
    requires Sized(files)
    ensures var (after, ret) := Close(files, fd);
            && (ret == 0 || ret == -1)
            && (ret == 0 <==> STD_RANGE <= fd < FILE_LIMIT && files[fd].flags)
            && (ret == -1 ==> after == files)
            && (ret == 0 && files[fd].kind == Regular ==> after[fd].position == 0)
            && (ret == 0 ==> !after[fd].flags && forall i :: 0 <= i < FILE_LIMIT && i != fd ==> after[i] == files[i])
  {
  }

  /** Opening and closing again leaves every descriptor as open as it was, and every open
      one as it was; the next opening gets the same descriptor. */
  lemma OpenThenClose(img: Image, files: seq<Fd>, name: seq<byte>)
    requires WellFormed(img) && Sized(files) && Open(img, files, name).1 != -1
    ensures var (during, fd) := Open(img, files, name);
            var (closed, ret) := Close(during, fd);
            && ret == 0
            && (forall i :: 0 <= i < FILE_LIMIT ==> closed[i].flags == files[i].flags)
            && (forall i :: 0 <= i < FILE_LIMIT && files[i].flags ==> closed[i] == files[i])
            && Open(img, closed, name).1 == fd
  {
    var (during, fd) := Open(img, files, name);
    OpenMeans(img, files, name);
    CloseMeans(during, fd);
    var closed := Close(during, fd).0;
    FreeUnique(closed, STD_RANGE, fd);
  }

  lemma FreeUnique(files: seq<Fd>, from: nat, fd: nat)
    requires Sized(files) && from <= fd < FILE_LIMIT && !files[fd].flags
    requires forall i :: from <= i < fd ==> files[i].flags
    ensures FreeFrom(files, from) == fd
  {
  }

  /** Entry `k` of the directory is the first of that name. */
  predicate FirstNamed(img: Image, name: seq<byte>, k: nat) {
    && k < |img.dentries| && Names(img.dentries[k], name)
    && forall j :: 0 <= j < k ==> !Names(img.dentries[j], name)
  }

  /** An entry just opened on `d`: as a clock, a directory or a regular file by its type, at
      its start, with nothing delivered yet. */
  predicate OpenedOn(f: Fd, d: Dentry) {
    && f.flags && f.log == []
    && (d.fileType == RTC_TYPE ==> f.kind == Rtc && f.position == 256)
    && (d.fileType == DIRECTORY_TYPE ==> f.kind == Directory && f.position == 0)
    && (d.fileType == REGULAR_TYPE ==> f.kind == Regular && f.position == 0 && f.inode == d.inode)
  }

  /** What opening means: it succeeds exactly when some descriptor from 2 on is closed and
      the name exists; then the lowest such descriptor is open on the first entry of that
      name; no other descriptor changes. */
  lemma OpenMeans(img: Image, files: seq<Fd>, name: seq<byte>)
    requires WellFormed(img) && Sized(files)
    ensures var (after, fd) := Open(img, files, name);
            && (fd == -1 || STD_RANGE <= fd < FILE_LIMIT)
            && (fd == -1 ==> after == files)
            && (fd == -1 <==> (forall i :: STD_RANGE <= i < FILE_LIMIT ==> files[i].flags)
                              || |name| > NAME_MAX || forall d :: d in img.dentries ==> !Names(d, name))
            && (fd != -1 ==>
                  && !files[fd].flags && (forall i :: STD_RANGE <= i < fd ==> files[i].flags)
                  && (forall i :: 0 <= i < FILE_LIMIT && i != fd ==> after[i] == files[i])
                  && (exists k: nat :: FirstNamed(img, name, k) && OpenedOn(after[fd], img.dentries[k])))
  {
    var (after, fd) := Open(img, files, name);
    LookupMeans(img.dentries, name);
    match Lookup(img.dentries, name)
    case None =>
      forall d | d in img.dentries
        ensures !Names(d, name)
      {
        var k :| 0 <= k < |img.dentries| && img.dentries[k] == d;
      }
    case Some(k) =>
      assert img.dentries[k] in img.dentries && DentryOk(img, img.dentries[k]);
      assert FirstNamed(img, name, k);
  }

  /** Opening keeps every descriptor consistent and disturbs none that is open. */
  lemma OpenConsistent(img: Image, files: seq<Fd>, name: seq<byte>)
    requires WellFormed(img) && Sized(files) && Consistent(img, files)
    ensures var (after, ret) := Open(img, files, name);
            && Consistent(img, after)
            && (forall i :: 0 <= i < FILE_LIMIT && files[i].flags ==> after[i] == files[i])
            && (ret != -1 ==> STD_RANGE <= ret < FILE_LIMIT && !files[ret].flags && after[ret].flags)
            && (ret == -1 ==> after == files)
  {
    var k := Lookup(img.dentries, name);
    if k.Some? {
      var d := img.dentries[k.value];
      assert d in img.dentries && DentryOk(img, d);
      if d.fileType == REGULAR_TYPE {
        var nd := img.inodes[d.inode];
        assert nd in img.inodes && InodeOk(img, nd);
        assert Contents(img, nd)[..0] == Flatten([]);
      }
    }
  }

  lemma CloseConsistent(img: Image, files: seq<Fd>, fd: int)
    requires WellFormed(img) && Sized(files) && Consistent(img, files)
    ensures Consistent(img, Close(files, fd).0)
  {
  }

  lemma {:induction false} CloseBelowConsistent(img: Image, files: seq<Fd>, n: nat)
    requires WellFormed(img) && Sized(files) && n <= FILE_LIMIT && Consistent(img, files)
    ensures Consistent(img, CloseBelow(files, n))
  {
    if n != 0 {
      CloseBelowConsistent(img, files, n - 1);
      CloseConsistent(img, CloseBelow(files, n - 1), n - 1);
    }
  }

  /** After `halt`'s loop only standard input and output can still be marked open. */
  lemma {:induction false} CloseBelowClosed(files: seq<Fd>, n: nat)
    requires Sized(files) && n <= FILE_LIMIT
    ensures forall i :: STD_RANGE <= i < n ==> !CloseBelow(files, n)[i].flags
    ensures forall i :: n <= i < FILE_LIMIT ==> CloseBelow(files, n)[i] == files[i]
    ensures forall i :: 0 <= i < Min(n, STD_RANGE) ==> CloseBelow(files, n)[i] == files[i]
  {
    if n != 0 {
      CloseBelowClosed(files, n - 1);
    }
  }

  lemma DirectoryStep(img: Image, f: Fd)
    requires WellFormed(img) && FdOk(img, f) && f.flags && f.kind == Directory && f.position < |img.dentries|
    ensures FdOk(img, f.(position := f.position + 1, log := f.log + [CStr(img.dentries[f.position].name)]))
  {
  }

  lemma RegularStep(img: Image, f: Fd, count: nat)
    requires WellFormed(img) && FdOk(img, f) && f.flags && f.kind == Regular
    requires f.position + count <= img.inodes[f.inode].length
    ensures var bytes := Contents(img, img.inodes[f.inode])[f.position..f.position + count];
            FdOk(img, f.(position := f.position + count, log := f.log + [bytes]))
  {
    var all := Contents(img, img.inodes[f.inode]);
    FlattenSnoc(f.log, all[f.position..f.position + count]);
    assert all[..f.position] + all[f.position..f.position + count] == all[..f.position + count];
  }

  /** The one descriptor a read changes. */
  lemma ReadFd(img: Image, files: seq<Fd>, fd: int, n: int)
    requires WellFormed(img) && Sized(files) && Consistent(img, files) && 0 <= fd < FILE_LIMIT
    ensures var after := Read(img, files, fd, n).0;
            FdOk(img, after[fd]) && after == files[fd := after[fd]]
  {
    var f := files[fd];
    assert FdOk(img, f);
    if n >= 0 && f.flags {
      if f.kind == Regular {
        assert InodeOk(img, img.inodes[f.inode]);
        RegularStep(img, f, Available(img.inodes[f.inode], f.position, n));
      } else if f.kind == Directory && f.position < |img.dentries| {
        DirectoryStep(img, f);
      }
    }
  }

  lemma ReplaceConsistent(img: Image, files: seq<Fd>, fd: nat, f: Fd)
    requires WellFormed(img) && Consistent(img, files) && fd < |files| && FdOk(img, f)
    ensures Consistent(img, files[fd := f])
  {
  }

  /** A read keeps the history exact: the bytes handed out since the open are the
      contents up to the new position. */
  lemma ReadConsistent(img: Image, files: seq<Fd>, fd: int, n: int)
    requires WellFormed(img) && Sized(files) && Consistent(img, files)
    ensures Consistent(img, Read(img, files, fd, n).0)
  {
    if 0 <= fd < FILE_LIMIT {
      ReadFd(img, files, fd, n);
      ReplaceConsistent(img, files, fd, Read(img, files, fd, n).0[fd]);
    }
  }

  /** A read of a regular file answers the bytes that follow the ones already handed out, as
      many as were asked for and are left: for a positive size, nothing exactly at its end. */
  lemma ReadAtEnd(img: Image, files: seq<Fd>, fd: int, n: int)
    requires WellFormed(img) && Sized(files) && Consistent(img, files)
    requires STD_RANGE <= fd < FILE_LIMIT && files[fd].flags && files[fd].kind == Regular && n >= 0
    ensures var f := files[fd];
            var all := Contents(img, img.inodes[f.inode]);
            var reply := Read(img, files, fd, n).1;
            && reply.Data?
            && Flatten(f.log) + reply.bytes <= all
            && |reply.bytes| == Min(n, |all| - |Flatten(f.log)|)
            && (n > 0 ==> (reply.bytes == [] <==> Flatten(f.log) == all))
  {
    var f := files[fd];
    assert FdOk(img, f);
    var all := Contents(img, img.inodes[f.inode]);
    assert InodeOk(img, img.inodes[f.inode]);
    var count := Available(img.inodes[f.inode], f.position, n);
    assert all[..f.position] + all[f.position..f.position + count] == all[..f.position + count];
    if f.position == |all| {
      assert all[..f.position] == all;
    } else {
      assert |all[..f.position]| < |all|;
    }
  }

  /** The name a directory read at a position answers: nothing past the last. */
  function NameAt(img: Image, position: nat): seq<byte> {
    if position < |img.dentries| then CStr(img.dentries[position].name) else []
  }

  /** A read of a directory answers the name at its position and moves on by one; at the end
      it answers nothing and stays. No other descriptor changes. */
  lemma DirectoryReads(img: Image, files: seq<Fd>, fd: int, n: int)
    requires WellFormed(img) && Sized(files) && Consistent(img, files)
    requires 0 <= fd < FILE_LIMIT && files[fd].flags && files[fd].kind == Directory && n >= 0
    ensures var p := files[fd].position;
            var (after, reply) := Read(img, files, fd, n);
            && 0 <= p <= |img.dentries| && reply == Data(NameAt(img, p))
            && after[fd].flags && after[fd].kind == Directory
            && after[fd].position == (if p < |img.dentries| then p + 1 else p)
            && (forall i :: 0 <= i < FILE_LIMIT && i != fd ==> after[i] == files[i])
  {
    assert FdOk(img, files[fd]);
  }

  /** A read of the clock waits. */
  lemma ClockReads(img: Image, files: seq<Fd>, fd: int, n: int)
    requires WellFormed(img) && Sized(files) && Consistent(img, files)
    requires STD_RANGE <= fd < FILE_LIMIT && files[fd].flags && files[fd].kind == Rtc && n >= 0
    ensures Read(img, files, fd, n) == (files, Blocks)
  {
  }

  /** A read of anything closed or out of range, or of negative size, answers -1 and changes
      nothing. */
  lemma BadReads(img: Image, files: seq<Fd>, fd: int, n: int)
    requires WellFormed(img) && Sized(files) && Consistent(img, files)
    requires fd < 0 || fd >= FILE_LIMIT || n < 0 || !files[fd].flags
    ensures Read(img, files, fd, n) == (files, Code(-1))
  {
  }
}
