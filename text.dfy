/** The string handling the session applies to console replies: Python's
    `str.lower()` and `str.strip()`, and the replies a y/n prompt reads as "yes". */
module Text {

  /** `c.lower()` for one character. Only A-Z change; see README for the other letters. */
  function LowerChar(c: char): char
  {
    if 'A' <= c <= 'Z' then (c as int + 32) as char else c
  }

  /** `s.lower()`: every character lowered in place, the length kept. */
  function Lower(s: string): (r: string)
    ensures |r| == |s|
    ensures forall i :: 0 <= i < |s| ==> r[i] == LowerChar(s[i])
  {
    if s == [] then [] else [LowerChar(s[0])] + Lower(s[1..])
  }

  /** The characters `str.strip()` removes: those for which `str.isspace()` holds. */
  predicate IsSpace(c: char)
  {
    var n := c as int;
    (0x09 <= n <= 0x0D) || (0x1C <= n <= 0x20) || n == 0x85 || n == 0xA0 || n == 0x1680
    || (0x2000 <= n <= 0x200A) || n == 0x2028 || n == 0x2029 || n == 0x202F
    || n == 0x205F || n == 0x3000
  }

  /** `s.lstrip()`. */
  function StripStart(s: string): string
  {
    if s != [] && IsSpace(s[0]) then StripStart(s[1..]) else s
  }

  /** `s.rstrip()`. */
  function StripEnd(s: string): string
  {
    if s != [] && IsSpace(s[|s| - 1]) then StripEnd(s[..|s| - 1]) else s
  }

  /** `s.strip()`: whitespace removed from both ends. */
  function Strip(s: string): string
  {
    StripEnd(StripStart(s))
  }

  /** StripStart drops exactly the leading whitespace: what it returns is a suffix
      of `s` that does not start with whitespace, and all it dropped is whitespace. */
  lemma {:induction false} StripStartDropsLeadingSpace(s: string)
    ensures |StripStart(s)| <= |s| && StripStart(s) == s[|s| - |StripStart(s)|..]
    ensures forall k :: 0 <= k < |s| - |StripStart(s)| ==> IsSpace(s[k])
    ensures StripStart(s) == [] || !IsSpace(StripStart(s)[0])
  {
    if s != [] && IsSpace(s[0]) {
      StripStartDropsLeadingSpace(s[1..]);
      var r := StripStart(s[1..]);
      assert s[1..][|s| - 1 - |r|..] == s[|s| - |r|..];
      forall k | 0 <= k < |s| - |r| ensures IsSpace(s[k]) {
        if k > 0 {
          assert s[k] == s[1..][k - 1];
        }
      }
    }
  }

  /** StripEnd drops exactly the trailing whitespace: what it returns is a prefix
      of `s` that does not end with whitespace, and all it dropped is whitespace. */
  lemma {:induction false} StripEndDropsTrailingSpace(s: string)
    ensures |StripEnd(s)| <= |s| && StripEnd(s) == s[..|StripEnd(s)|]
    ensures forall k :: |StripEnd(s)| <= k < |s| ==> IsSpace(s[k])
    ensures StripEnd(s) == [] || !IsSpace(StripEnd(s)[|StripEnd(s)| - 1])
  {
    if s != [] && IsSpace(s[|s| - 1]) {
      var init := s[..|s| - 1];
      StripEndDropsTrailingSpace(init);
      var r := StripEnd(init);
      assert init[..|r|] == s[..|r|];
      forall k | |r| <= k < |s| ensures IsSpace(s[k]) {
        if k < |s| - 1 {
          assert s[k] == init[k];
        }
      }
    }
  }

  /** Strip leaves no whitespace at either end, and leaves a string without
      whitespace as it is. */
  lemma StripTrims(s: string)
    ensures |Strip(s)| <= |s|
    ensures Strip(s) == [] || (!IsSpace(Strip(s)[0]) && !IsSpace(Strip(s)[|Strip(s)| - 1]))
    ensures (forall k :: 0 <= k < |s| ==> !IsSpace(s[k])) ==> Strip(s) == s
  {
    var t := StripStart(s);
    StripStartDropsLeadingSpace(s);
    StripEndDropsTrailingSpace(t);
    var r := StripEnd(t);
    if r != [] {
      assert r[0] == t[0];
    }
    if forall k :: 0 <= k < |s| ==> !IsSpace(s[k]) {
      assert t == s;
    }
  }

  /** The replies a y/n prompt reads as "yes": `y` or `yes`, in any mix of cases. */
  predicate AnswersYes(s: string)
  {
    (|s| == 1 && s[0] in "yY")
    || (|s| == 3 && s[0] in "yY" && s[1] in "eE" && s[2] in "sS")
  }

  lemma LowerCharIs(c: char, l: char)
    requires 'a' <= l <= 'z'
    ensures LowerChar(c) == l <==> c == l || c as int == l as int - 32
  {
  }

  /** `s.lower() in ("y", "yes")` holds exactly for the replies AnswersYes accepts. */
  lemma LowerIsYes(s: string)
    ensures (Lower(s) == "y" || Lower(s) == "yes") <==> AnswersYes(s)
  {
    var l := Lower(s);
    LowerCharIs(if |s| > 0 then s[0] else 'y', 'y');
    if |s| == 1 {
      assert l == "y" <==> l[0] == 'y';
    } else if |s| == 3 {
      LowerCharIs(s[1], 'e');
      LowerCharIs(s[2], 's');
      assert l == "yes" <==> l[0] == 'y' && l[1] == 'e' && l[2] == 's';
    }
  }
}
