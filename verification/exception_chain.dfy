/** Normalised exceptions: their shape, and the fact that they keep every
    getter's answer, so that the exception chain can be read back from them
    in full. */
module ExceptionChain {
  import opened Wrappers
  import opened PhpArray
  import opened Values
  import opened Decimal
  import opened Normalizer

  /** The number of exceptions behind `e` in its `getPrevious` chain. */
  function Causes(e: Exception): nat
    decreases e
  {
    match e.previous
    case None => 0
    case Some(p) => 1 + Causes(p)
  }

  /** The keys of a normalised exception, in order. */
  function ExceptionKeys(hasPrevious: bool): seq<Key> {
    [StrKey("class"), StrKey("message"), StrKey("code"), StrKey("file"), StrKey("trace")]
    + (if hasPrevious then [StrKey("previous")] else [])
  }

  /** The keys are class, message, code, file, trace, then previous exactly
      when there is a previous exception. */
  lemma ExceptionLayout(e: Exception)
    ensures var r := NormalizeException(e);
            && r.NAssoc?
            && |r.entries| == |ExceptionKeys(e.previous.Some?)|
            && (forall i :: 0 <= i < |r.entries| ==> r.entries[i].0 == ExceptionKeys(e.previous.Some?)[i])
            && r.entries[3].1 == NStr(e.file + ":" + IntToString(e.line))
            && r.entries[4].1 == NList([NStr(e.trace)])
            && (e.previous.Some? ==> r.entries[5].1 == NormalizeException(e.previous.value))
  {
  }

  /** How many `previous` levels a normalised exception nests. */
  function PreviousDepth(n: Norm): nat
    decreases n
  {
    match n
    case NAssoc(es) =>
      if |es| == 6 && es[5].0 == StrKey("previous") then
        var (_, p) := es[5];
        assert p < es[5];
        1 + PreviousDepth(p)
      else 0
    case _ => 0
  }

  /** The chain is expanded to its end: `previous` nests as deep as there
      are causes, however long the chain. */
  lemma {:induction false} ChainFullyExpanded(e: Exception)
    ensures PreviousDepth(NormalizeException(e)) == Causes(e)
    decreases e
  {
    match e.previous
    case None =>
    case Some(p) => ChainFullyExpanded(p);
  }

  /** Position of the last occurrence of `c` in `s`. */
  function LastIndexOf(s: string, c: char): (r: Option<nat>)
    ensures r.Some? ==> r.value < |s| && s[r.value] == c
    decreases |s|
  {
    if |s| == 0 then None
    else if s[|s| - 1] == c then Some(|s| - 1)
    else LastIndexOf(s[..|s| - 1], c)
  }

  lemma {:induction false} LastIndexOfIs(s: string, c: char, i: nat)
    requires i < |s| && s[i] == c
    requires forall j :: i < j < |s| ==> s[j] != c
    ensures LastIndexOf(s, c) == Some(i)
    decreases |s|
  {
    if i < |s| - 1 {
      var t := s[..|s| - 1];
      assert forall j :: i < j < |t| ==> t[j] == s[j];
      LastIndexOfIs(t, c, i);
    }
  }

  /** Splits `"<file>:<line>"` at its last colon. */
  function SplitFileLine(s: string): Option<(string, int)> {
    match LastIndexOf(s, ':')
    case None => None
    case Some(i) =>
      match ParseInt(s[i + 1..])
      case None => None
      case Some(line) => Some((s[..i], line))
  }

  /** A file path may contain colons; the line number never does. */
  lemma FileLineRoundTrip(file: string, line: int)
    ensures SplitFileLine(file + ":" + IntToString(line)) == Some((file, line))
  {
    var s := file + ":" + IntToString(line);
    forall j | |file| < j < |s| ensures s[j] != ':' {
      assert s[j] == IntToString(line)[j - |file| - 1];
    }
    LastIndexOfIs(s, ':', |file|);
    assert s[|file| + 1..] == IntToString(line);
    assert s[..|file|] == file;
    IntRoundTrip(line);
  }

  /** Reads the five leading entries of a normalised exception back into an
      exception with no previous one. */
  function DecodeHead(es: seq<(Key, Norm)>): Option<Exception>
    requires |es| >= 5
  {
    if es[0].0 != StrKey("class") || !es[0].1.NStr? then None
    else if es[1].0 != StrKey("message") || !es[1].1.NStr? then None
    else if es[2].0 != StrKey("code") || !es[2].1.NInt? then None
    else if es[3].0 != StrKey("file") || !es[3].1.NStr? then None
    else if es[4].0 != StrKey("trace") || !es[4].1.NList? then None
    else if |es[4].1.items| != 1 || !es[4].1.items[0].NStr? then None
    else
      match SplitFileLine(es[3].1.s)
      case None => None
      case Some(fileLine) =>
        Some(Exception(es[0].1.s, es[1].1.s, es[2].1.i, fileLine.0, fileLine.1, es[4].1.items[0].s, None))
  }

  /** Reads a normalised exception back; `None` if `n` does not have the
      shape `normalizeException` produces. */
  function DecodeException(n: Norm): Option<Exception>
    decreases n
  {
    match n
    case NAssoc(es) =>
      if !(5 <= |es| <= 6) then None
      else if DecodeHead(es).None? then None
      else if |es| == 5 then DecodeHead(es)
      else if es[5].0 != StrKey("previous") then None
      else
        var (_, p) := es[5];
        assert p < es[5];
        var prev := DecodeException(p);
        if prev.None? then None
        else Some(DecodeHead(es).value.(previous := prev))
    case _ => None
  }

  lemma HeadRoundTrip(e: Exception, rest: seq<(Key, Norm)>)
    ensures DecodeHead(ExceptionHead(e) + rest) == Some(e.(previous := None))
  {
    var es := ExceptionHead(e) + rest;
    assert es[..5] == ExceptionHead(e);
    FileLineRoundTrip(e.file, e.line);
  }

  /** Nothing is lost: every field of every exception in the chain can be
      read back from the normalised form. */
  lemma {:induction false} ExceptionRoundTrip(e: Exception)
    ensures DecodeException(NormalizeException(e)) == Some(e)
    decreases e
  {
    match e.previous
    case None =>
      HeadRoundTrip(e, []);
      assert ExceptionHead(e) + [] == ExceptionHead(e);
    case Some(p) =>
      var tail := [(StrKey("previous"), NormalizeException(p))];
      HeadRoundTrip(e, tail);
      ExceptionRoundTrip(p);
      assert (ExceptionHead(e) + tail)[5] == tail[0];
  }
}
