/**
 * The few string operations of Python that the client relies on:
 * `str.isspace`, `str.strip`, `str.lower` (as far as it matters for the
 * answer "y"), `"\n".join` and `str.split("\n")`.
 */
module Text {

  /** Python's `str.isspace` for a single code point: the ASCII controls
      TAB..CR and FS..US, the space, and the Unicode separators. */
  predicate IsSpace(c: char) {
    var n := c as int;
    (9 <= n <= 13) || (28 <= n <= 32) || n == 0x85 || n == 0xA0 || n == 0x1680
    || (0x2000 <= n <= 0x200A) || n == 0x2028 || n == 0x2029 || n == 0x202F
    || n == 0x205F || n == 0x3000
  }

  /** Every character is white space (the empty string included). */
  predicate IsBlank(s: string) {
    forall i :: 0 <= i < |s| ==> IsSpace(s[i])
  }

  /** `s.lstrip()`. */
  function TrimStart(s: string): string {
    if s != [] && IsSpace(s[0]) then TrimStart(s[1..]) else s
  }

  /** `s.rstrip()`. */
  function TrimEnd(s: string): string {
    if s != [] && IsSpace(s[|s| - 1]) then TrimEnd(s[..|s| - 1]) else s
  }

  /** `lstrip` keeps a suffix, drops only white space, and what it keeps does
      not start with white space. */
  lemma {:induction false} TrimStartSuffix(s: string)
    ensures var r := TrimStart(s);
      |r| <= |s| && r == s[|s| - |r|..] && IsBlank(s[..|s| - |r|]) && (r != [] ==> !IsSpace(r[0]))
  {
    if s != [] && IsSpace(s[0]) {
      TrimStartSuffix(s[1..]);
      var r := TrimStart(s);
      assert forall i :: 1 <= i < |s| - |r| ==> s[i] == s[1..][i - 1];
    }
  }

  /** `rstrip` keeps a prefix, drops only white space, and what it keeps does
      not end with white space. */
  lemma {:induction false} TrimEndPrefix(s: string)
    ensures var r := TrimEnd(s);
      |r| <= |s| && r == s[..|r|] && IsBlank(s[|r|..]) && (r != [] ==> !IsSpace(r[|r| - 1]))
  {
    if s != [] && IsSpace(s[|s| - 1]) {
      TrimEndPrefix(s[..|s| - 1]);
      var r := TrimEnd(s);
      assert forall i :: |r| <= i < |s| - 1 ==> s[i] == s[..|s| - 1][i];
    }
  }

  /** `s.strip()`. */
  function Strip(s: string): string {
    TrimEnd(TrimStart(s))
  }

  /** What `strip` keeps is one contiguous run of `s`, everything around it is
      white space, and the run neither starts nor ends with white space. */
  lemma StripKeepsMiddle(s: string)
    ensures var r := Strip(s);
      exists i :: 0 <= i <= |s| - |r| && s[i..i + |r|] == r && IsBlank(s[..i]) && IsBlank(s[i + |r|..])
    ensures Strip(s) != [] ==> !IsSpace(Strip(s)[0]) && !IsSpace(Strip(s)[|Strip(s)| - 1])
  {
    var t := TrimStart(s);
    var r := TrimEnd(t);
    TrimStartSuffix(s);
    TrimEndPrefix(t);
    var i := |s| - |t|;
    assert s[i..i + |r|] == t[..|r|];
    assert s[i + |r|..] == t[|r|..];
  }

  /** A string strips to "" exactly when it is all white space. */
  lemma StripEmptyIffBlank(s: string)
    ensures Strip(s) == [] <==> IsBlank(s)
  {
    var t := TrimStart(s);
    TrimStartSuffix(s);
    TrimEndPrefix(t);
    if !IsBlank(s) {
      var k :| 0 <= k < |s| && !IsSpace(s[k]);
      assert t[k - (|s| - |t|)] == s[k];
    }
  }

  /** ASCII upper case to lower case; every other character unchanged. */
  function LowerChar(c: char): char {
    if 'A' <= c <= 'Z' then (c as int - 'A' as int + 'a' as int) as char else c
  }

  /** `s.lower()`, character by character. */
  function Lower(s: string): (r: string)
    ensures |r| == |s|
    ensures forall i :: 0 <= i < |s| ==> r[i] == LowerChar(s[i])
  {
    if s == [] then [] else [LowerChar(s[0])] + Lower(s[1..])
  }

  /** The answer to "Continue last session? (y/n)" that means yes:
      `answer.strip().lower() == "y"`. */
  predicate IsYes(answer: string) {
    Lower(Strip(answer)) == "y"
  }

  /** Exactly a lone "y" or "Y", with any white space around it, is a yes. */
  lemma YesAnswers(answer: string)
    ensures IsYes(answer) <==> Strip(answer) == "y" || Strip(answer) == "Y"
  {
    var s := Strip(answer);
    if IsYes(answer) {
      assert |s| == 1 && LowerChar(s[0]) == 'y';
      assert s == [s[0]];
    }
  }

  /** `"\n".join(parts)`. */
  function JoinLines(parts: seq<string>): string {
    if parts == [] then ""
    else if |parts| == 1 then parts[0]
    else parts[0] + "\n" + JoinLines(parts[1..])
  }

  /** `s.split("\n")`: the pieces between newlines (never an empty list). */
  function SplitLines(s: string): (r: seq<string>)
    ensures r != []
    decreases |s|
  {
    if '\n' !in s then [s]
    else
      var i := NewlineIndex(s);
      [s[..i]] + SplitLines(s[i + 1..])
  }

  /** Index of the first newline of `s`. */
  function NewlineIndex(s: string): (i: nat)
    requires '\n' in s
    ensures i < |s| && s[i] == '\n' && '\n' !in s[..i]
  {
    if s[0] == '\n' then 0
    else
      assert '\n' in s[1..] by {
        var k :| 0 <= k < |s| && s[k] == '\n';
        assert s[1..][k - 1] == '\n';
      }
      var j := NewlineIndex(s[1..]);
      assert s[..j + 1] == [s[0]] + s[1..][..j];
      j + 1
  }

  /** Lines that hold no newline are recovered from their join: joining with
      "\n" loses nothing (except that no lines and one empty line coincide). */
  lemma {:induction false} SplitJoin(parts: seq<string>)
    requires forall i :: 0 <= i < |parts| ==> '\n' !in parts[i]
    ensures SplitLines(JoinLines(parts)) == if parts == [] then [""] else parts
  {
    if |parts| > 1 {
      var s := JoinLines(parts);
      var p := parts[0];
      assert s == p + ("\n" + JoinLines(parts[1..]));
      assert s[|p|] == '\n';
      assert '\n' in s;
      var i := NewlineIndex(s);
      assert s[..|p|] == p;
      assert s[i + 1..] == JoinLines(parts[1..]);
      SplitJoin(parts[1..]);
    }
  }

  /** Joining lines whose first is not blank gives text that does not strip
      to "": the first line's non-space character survives the join. */
  lemma JoinNotBlank(parts: seq<string>)
    requires parts != [] && !IsBlank(parts[0])
    ensures Strip(JoinLines(parts)) != []
  {
    var s := JoinLines(parts);
    var k :| 0 <= k < |parts[0]| && !IsSpace(parts[0][k]);
    if |parts| > 1 {
      assert s == parts[0] + ("\n" + JoinLines(parts[1..]));
    }
    assert s[k] == parts[0][k];
    StripEmptyIffBlank(s);
  }
}
