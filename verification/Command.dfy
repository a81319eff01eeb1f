/** Command lines: splitting a command into a program name and an argument tail,
    resolving the name against the file system, and handing the tail back to the
    program (student-distrib/file_system.c:207-229, student-distrib/system_call.c). */
module Command {
  import opened Base
  import opened FileSystem

  const PARAMS_LEN: int := 128

  predicate NotSpace(b: byte) { b != SPACE }
  predicate EndsWord(b: byte) { b == SPACE || b == NEWLINE || b == 0 }
  predicate EndsLine(b: byte) { b == NEWLINE || b == 0 }

  /** First index from `i` on whose byte satisfies `stop`; a NUL always does. */
  function Until(cmd: seq<byte>, i: nat, stop: byte -> bool): (j: nat)
    requires i <= CLen(cmd) < |cmd| && stop(0)
    ensures i <= j <= CLen(cmd) && stop(cmd[j])
    ensures forall k :: i <= k < j ==> !stop(cmd[k])
    decreases CLen(cmd) - i
  {
    if stop(cmd[i]) then i else Until(cmd, i + 1, stop)
  }

  lemma UntilUnique(cmd: seq<byte>, i: nat, stop: byte -> bool, j: nat)
    requires i <= j <= CLen(cmd) < |cmd| && stop(0) && stop(cmd[j])
    requires forall k :: i <= k < j ==> !stop(cmd[k])
    ensures Until(cmd, i, stop) == j
  {
  }

  predicate IsCommand(cmd: seq<byte>) {
    CLen(cmd) < |cmd|
  }

  function WordStart(cmd: seq<byte>): nat requires IsCommand(cmd) { Until(cmd, 0, NotSpace) }
  function WordEnd(cmd: seq<byte>): nat requires IsCommand(cmd) { Until(cmd, WordStart(cmd), EndsWord) }
  function TailStart(cmd: seq<byte>): nat requires IsCommand(cmd) { Until(cmd, WordEnd(cmd), NotSpace) }
  function TailEnd(cmd: seq<byte>): nat requires IsCommand(cmd) { Until(cmd, TailStart(cmd), EndsLine) }

  /** The program name: the first word, cut to 32 bytes. */
  function Name(cmd: seq<byte>): seq<byte>
    requires IsCommand(cmd)
  {
    cmd[WordStart(cmd)..WordStart(cmd) + Min(NAME_MAX, WordEnd(cmd) - WordStart(cmd))]
  }

  /** The argument tail: everything after the separating spaces, up to the end of the line. */
  function Tail(cmd: seq<byte>): seq<byte>
    requires IsCommand(cmd)
  {
    cmd[TailStart(cmd)..TailEnd(cmd)]
  }

  predicate IsSpaces(s: seq<byte>) {
    forall i :: 0 <= i < |s| ==> s[i] == SPACE
  }

  predicate IsWord(s: seq<byte>) {
    s != [] && forall i :: 0 <= i < |s| ==> !EndsWord(s[i])
  }

  predicate IsTail(s: seq<byte>) {
    (s != [] ==> s[0] != SPACE) && forall i :: 0 <= i < |s| ==> !EndsLine(s[i])
  }

  /** A command spelled out from its parts. */
  function Spell(lead: seq<byte>, word: seq<byte>, gap: seq<byte>, tail: seq<byte>, rest: seq<byte>): seq<byte> {
    lead + word + gap + tail + rest
  }

  lemma WordAt(cmd: seq<byte>, a: nat, b: nat)
    requires a < b <= CLen(cmd) < |cmd| && EndsWord(cmd[b])
    requires forall k :: 0 <= k < a ==> cmd[k] == SPACE
    requires forall k :: a <= k < b ==> !EndsWord(cmd[k])
    ensures IsCommand(cmd) && WordStart(cmd) == a && WordEnd(cmd) == b
  {
    assert !EndsWord(cmd[a]);
    UntilUnique(cmd, 0, NotSpace, a);
    UntilUnique(cmd, a, EndsWord, b);
  }

  lemma TailAt(cmd: seq<byte>, c: nat, d: nat)
    requires IsCommand(cmd) && WordEnd(cmd) <= c <= d <= CLen(cmd) && EndsLine(cmd[d])
    requires forall k :: WordEnd(cmd) <= k < c ==> cmd[k] == SPACE
    requires forall k :: c <= k < d ==> !EndsLine(cmd[k])
    requires cmd[c] != SPACE
    ensures TailStart(cmd) == c && TailEnd(cmd) == d
  {
    UntilUnique(cmd, WordEnd(cmd), NotSpace, c);
    UntilUnique(cmd, c, EndsLine, d);
  }

  /** The parts of a command, located by where each of them ends. */
  lemma ParseAt(cmd: seq<byte>, a: nat, b: nat, c: nat, d: nat, word: seq<byte>)
    requires a < b <= c <= d < |cmd| && 0 in cmd[d..]
    requires forall k :: 0 <= k < a ==> cmd[k] == SPACE
    requires forall k :: a <= k < b ==> !EndsWord(cmd[k])
    requires forall k :: b <= k < c ==> cmd[k] == SPACE
    requires forall k :: c <= k < d ==> !EndsLine(cmd[k])
    requires cmd[c] != SPACE && EndsLine(cmd[d]) && EndsWord(cmd[b])
    requires cmd[a..b] == word
    ensures IsCommand(cmd)
    ensures Name(cmd) == word[..Min(NAME_MAX, |word|)]
    ensures Tail(cmd) == cmd[c..d]
  {
    SpelledNul(cmd, d);
    WordAt(cmd, a, b);
    TailAt(cmd, c, d);
  }

  lemma SpelledParts(lead: seq<byte>, word: seq<byte>, gap: seq<byte>, tail: seq<byte>, rest: seq<byte>)
    requires IsSpaces(lead) && IsWord(word) && IsSpaces(gap) && IsTail(tail)
    requires rest != [] && EndsLine(rest[0]) && (tail != [] ==> gap != [])
    ensures var cmd := Spell(lead, word, gap, tail, rest);
            var a, b := |lead|, |lead| + |word|;
            var c := b + |gap|;
            var d := c + |tail|;
            && |cmd| == d + |rest|
            && (forall k :: 0 <= k < a ==> cmd[k] == SPACE)
            && (forall k :: a <= k < b ==> !EndsWord(cmd[k]))
            && (forall k :: b <= k < c ==> cmd[k] == SPACE)
            && (forall k :: c <= k < d ==> !EndsLine(cmd[k]))
            && cmd[c] != SPACE && EndsLine(cmd[d]) && EndsWord(cmd[b])
            && cmd[a..b] == word && cmd[c..d] == tail && cmd[d..] == rest
  {
    var cmd := Spell(lead, word, gap, tail, rest);
    var a, b := |lead|, |lead| + |word|;
    var c := b + |gap|;
    var d := c + |tail|;
    assert forall k :: 0 <= k < a ==> cmd[k] == lead[k];
    assert forall k :: a <= k < b ==> cmd[k] == word[k - a];
    assert forall k :: b <= k < c ==> cmd[k] == gap[k - b];
    assert forall k :: c <= k < d ==> cmd[k] == tail[k - c];
    assert cmd[d] == rest[0];
  }

  /** Parsing inverts spelling: whatever the leading and separating spaces and
      whatever follows the line, the parts come back. */
  lemma ParseSpelled(lead: seq<byte>, word: seq<byte>, gap: seq<byte>, tail: seq<byte>, rest: seq<byte>)
    requires IsSpaces(lead) && IsWord(word) && IsSpaces(gap) && IsTail(tail)
    requires tail != [] ==> gap != []
    requires rest != [] && EndsLine(rest[0]) && 0 in rest
    ensures var cmd := Spell(lead, word, gap, tail, rest);
            && IsCommand(cmd)
            && Name(cmd) == word[..Min(NAME_MAX, |word|)]
            && Tail(cmd) == tail
  {
    var b := |lead| + |word|;
    SpelledParts(lead, word, gap, tail, rest);
    ParseAt(Spell(lead, word, gap, tail, rest), |lead|, b, b + |gap|, b + |gap| + |tail|, word);
  }

  lemma SpelledNul(cmd: seq<byte>, d: nat)
    requires d <= |cmd| && 0 in cmd[d..]
    requires forall k :: 0 <= k < d ==> cmd[k] != 0
    ensures d <= CLen(cmd) < |cmd|
  {
    var k :| 0 <= k < |cmd[d..]| && cmd[d..][k] == 0;
    assert cmd[d + k] == 0;
  }

  method SkipSpaces(cmd: seq<byte>, start: nat) returns (p: nat)
    requires start <= CLen(cmd) < |cmd|
    ensures p == Until(cmd, start, NotSpace)
  {
    p := start;
    while cmd[p] == SPACE
      invariant start <= p <= Until(cmd, start, NotSpace)
      decreases |cmd| - p
    {
      p := p + 1;
    }
  }

  method CopyName(cmd: seq<byte>, filename: array<byte>) returns (p: nat, f: nat)
    requires IsCommand(cmd) && filename.Length == NAME_MAX + 1
    modifies filename
    ensures p == WordEnd(cmd) && f <= NAME_MAX && filename[..f] == Name(cmd)
  {
    var start := SkipSpaces(cmd, 0);
    ghost var end := WordEnd(cmd);
    var count := 0;
    p, f := start, 0;
    while cmd[p] != SPACE && cmd[p] != NEWLINE && cmd[p] != 0
      invariant start <= p <= end
      invariant count == p - start && f == Min(NAME_MAX, count)
      invariant filename[..f] == cmd[start..start + f]
      decreases |cmd| - p
    {
      count := count + 1;
      if count - 1 < NAME_MAX {
        filename[f] := cmd[p];
        f, p := f + 1, p + 1;
      } else {
        p := p + 1;
      }
    }
  }

  method CopyTail(cmd: seq<byte>, wordEnd: nat, params: array<byte>) returns (q: nat)
    requires IsCommand(cmd) && wordEnd == WordEnd(cmd) && params.Length == PARAMS_LEN
    requires |Tail(cmd)| < PARAMS_LEN
    modifies params
    ensures q < PARAMS_LEN && params[..q] == Tail(cmd)
  {
    var start := SkipSpaces(cmd, wordEnd);
    var p := start;
    q := 0;
    while cmd[p] != NEWLINE && cmd[p] != 0
      invariant start <= p <= TailEnd(cmd) && q == p - start
      invariant params[..q] == cmd[start..p]
      decreases |cmd| - p
    {
      params[q] := cmd[p];
      q, p := q + 1, p + 1;
    }
  }

  method Terminate(a: array<byte>, n: nat, ghost text: seq<byte>)
    requires n < a.Length && a[..n] == text && 0 !in text
    modifies a
    ensures CLen(a[..]) == n && CStr(a[..]) == text
  {
    a[n] := 0;
    assert a[..][..n] == text;
    assert forall k :: 0 <= k < n ==> a[..][k] == text[k];
    CLenUnique(a[..], n);
  }

  lemma PartsHoldNoNul(cmd: seq<byte>)
    requires IsCommand(cmd)
    ensures 0 !in Name(cmd) && 0 !in Tail(cmd)
  {
  }

  /** `parse_command` (student-distrib/file_system.c:207-229). The tail must fit the
      caller's 128-byte buffer with its NUL. */
  method ParseCommand(cmd: seq<byte>, filename: array<byte>, params: array<byte>)
    requires IsCommand(cmd)
    requires filename.Length == NAME_MAX + 1 && params.Length == PARAMS_LEN && filename != params
    requires |Tail(cmd)| < PARAMS_LEN
    modifies filename, params
    ensures CLen(filename[..]) <= NAME_MAX && CStr(filename[..]) == Name(cmd)
    ensures CLen(params[..]) < PARAMS_LEN && CStr(params[..]) == Tail(cmd)
  {
    PartsHoldNoNul(cmd);
    var p, f := CopyName(cmd, filename);
    var q := CopyTail(cmd, p, params);
    Terminate(filename, f, Name(cmd));
    Terminate(params, q, Tail(cmd));
  }

  /** What `_execute` makes of a command before it creates a process
      (student-distrib/system_call.c:149-158). */
  datatype Load = Unloadable | Loadable(dentry: nat, params: seq<byte>)

  function Resolve(img: Image, cmd: seq<byte>): (r: Load)
    requires WellFormed(img) && IsCommand(cmd)
    ensures r.Loadable? ==> r.dentry < |img.dentries| && r.params == Tail(cmd)
  {
    match Lookup(img.dentries, Name(cmd))
    case None => Unloadable
    case Some(k) => if Executable(img, img.dentries[k]) then Loadable(k, Tail(cmd)) else Unloadable
  }

  /** A command loads exactly when the first entry with its name is executable; its
      arguments are then its tail. */
  lemma ResolveMeans(img: Image, cmd: seq<byte>)
    requires WellFormed(img) && IsCommand(cmd)
    ensures var r := Resolve(img, cmd);
            && (r.Loadable? ==>
                  && Names(img.dentries[r.dentry], Name(cmd)) && Executable(img, img.dentries[r.dentry])
                  && (forall k :: 0 <= k < r.dentry ==> !Names(img.dentries[k], Name(cmd)))
                  && r.params == Tail(cmd))
            && (r.Unloadable? ==>
                  forall k :: 0 <= k < |img.dentries| && Names(img.dentries[k], Name(cmd))
                              && (forall j :: 0 <= j < k ==> !Names(img.dentries[j], Name(cmd)))
                              ==> !Executable(img, img.dentries[k]))
  {
    LookupMeans(img.dentries, Name(cmd));
  }

  /** What `getargs` hands over of the stored arguments when asked for `n` bytes: all of
      them, or nothing. The size test is an unsigned comparison, so a negative `n` passes. */
  function Fetch(params: seq<byte>, n: int): Option<seq<byte>> {
    var text := CStr(params);
    if text != [] && (n < 0 || |text| + 1 <= n) then Some(text) else None
  }

  /** `getargs` (student-distrib/system_call.c:322-335) on the stored buffer. */
  method GetArgs(params: seq<byte>, buf: array<byte>, nbytes: int) returns (ret: int)
    requires IsCommand(params)
    requires -0x8000_0000 <= nbytes < 0x8000_0000
    requires nbytes <= buf.Length && (nbytes < 0 ==> CLen(params) < buf.Length) && |params| <= PARAMS_LEN
    modifies buf
    ensures ret == if Fetch(params, nbytes).Some? then 0 else -1
    ensures ret == 0 <==> CLen(params) > 0 && (nbytes < 0 || CLen(params) + 1 <= nbytes)
    ensures ret == 0 ==> CLen(buf[..]) < buf.Length && CStr(buf[..]) == CStr(params)
    ensures ret == 0 ==> buf[CLen(params) + 1..] == old(buf[..])[CLen(params) + 1..]
    ensures ret == -1 ==> buf[..] == old(buf[..])
  {
    if nbytes % TWO_32 < CLen(params) + 1 || params[0] == 0 {
      return -1;
    }
    var i := 0;
    while params[i] != 0
      invariant 0 <= i <= CLen(params)
      invariant buf[..i] == params[..i]
      invariant forall k :: i <= k < buf.Length ==> buf[k] == old(buf[k])
      decreases |params| - i
    {
      buf[i] := params[i];
      i := i + 1;
    }
    buf[i] := 0;
    assert buf[..][..i] == params[..i];
    assert forall k :: 0 <= k < i ==> buf[..][k] == params[..i][k];
    CLenUnique(buf[..], i);
    return 0;
  }

  /** Parsed and stored, a tail of any length comes back exactly when it is not empty and
      fits with its NUL. */
  lemma FetchTail(cmd: seq<byte>, n: int)
    requires IsCommand(cmd) && n >= 0
    ensures Fetch(Tail(cmd), n) == if Tail(cmd) != [] && |Tail(cmd)| + 1 <= n then Some(Tail(cmd)) else None
  {
    PartsHoldNoNul(cmd);
    var tail := Tail(cmd);
    assert forall i :: 0 <= i < |tail| ==> tail[i] in tail;
    CLenUnique(tail, |tail|);
    assert tail[..|tail|] == tail;
  }
}
