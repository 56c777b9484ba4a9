/** `Normalizer::format`: normalise from depth 0, hand a string result back
    as it is, otherwise JSON-encode the tree and clean the text up. The JSON
    encoder is foreign code and is a parameter: `None` stands for its `false`
    failure result. */
module Format {
  import opened Wrappers
  import opened Values
  import opened Normalizer
  import opened StrReplace

  /** The six characters of the JSON escape of a NUL character. */
  const NullEscape: string := ['\\', 'u', '0', '0', '0', '0']
  const DoubleBackslash: string := ['\\', '\\']
  const Backslash: string := ['\\']

  /** The post-encoding rewrite: every `\u0000` is deleted, then every `\\`
      in what remains becomes `\`. Stated through `explode`/`implode`: split
      at the escapes and join with nothing, then split at the doubled
      backslashes and join with single ones. */
  function Cleanup(json: string): (r: string)
    ensures r == Implode(Explode(Implode(Explode(json, NullEscape), ""), DoubleBackslash), Backslash)
    ensures |r| <= |json|
    ensures '\\' !in json ==> r == json
  {
    var noNul := ReplaceAll(json, NullEscape, "");
    ReplaceIsExplodeImplode(json, NullEscape, "");
    ReplaceIsExplodeImplode(noNul, DoubleBackslash, Backslash);
    ReplaceNeverLonger(json, NullEscape, "");
    ReplaceNeverLonger(noNul, DoubleBackslash, Backslash);
    if '\\' !in json then
      FirstCharAbsent(json, NullEscape);
      ReplaceAbsent(json, NullEscape, "");
      FirstCharAbsent(json, DoubleBackslash);
      ReplaceAbsent(json, DoubleBackslash, Backslash);
      ReplaceAll(noNul, DoubleBackslash, Backslash)
    else
      ReplaceAll(noNul, DoubleBackslash, Backslash)
  }

  /** The order of the two passes matters: an escaped backslash followed by
      `u0000` is the escape of a backslash and the text "u0000", yet the
      deletion runs first, so only the backslash survives. */
  lemma CleanupOrder()
    ensures Cleanup(DoubleBackslash + "u0000") == Backslash
  {
    var json := DoubleBackslash + "u0000";
    assert !StartsWith(json, NullEscape) by { assert json[1] != NullEscape[1]; }
    assert json[1..] == NullEscape;
    assert StartsWith(json[1..], NullEscape);
    assert ReplaceAll(json[1..][6..], NullEscape, "") == "";
    assert ReplaceAll(json, NullEscape, "") == Backslash;
    assert ReplaceAll(Backslash[1..], DoubleBackslash, Backslash) == "";
    assert ReplaceAll(Backslash, DoubleBackslash, Backslash) == Backslash;
  }

  /** `format($data)`, returning the result instead of overwriting `$data`.
      When encoding fails, `str_replace` receives `false`, which PHP turns
      into the empty string. */
  function Format(cfg: Config, v: Value, encode: Norm -> Option<string>): string {
    var n := Normalize(cfg, v, 0);
    if n.NStr? then n.s
    else
      match encode(n)
      case None => ""
      case Some(json) => Cleanup(json)
  }

  /** A string result of `normalize` is returned untouched; anything else is
      the encoder's text passed through `Cleanup`: never longer, and unchanged when it
      holds no backslash; an encoding failure yields the empty string. */
  lemma FormatResult(cfg: Config, v: Value, encode: Norm -> Option<string>)
    ensures var n := Normalize(cfg, v, 0);
            var r := Format(cfg, v, encode);
            && (n.NStr? ==> r == n.s)
            && (!n.NStr? && encode(n).None? ==> r == "")
            && (!n.NStr? && encode(n).Some? ==> r == Cleanup(encode(n).value))
            && (!n.NStr? && encode(n).Some? ==> |r| <= |encode(n).value|)
            && (!n.NStr? && encode(n).Some? && '\\' !in encode(n).value ==> r == encode(n).value)
  {
  }
}
