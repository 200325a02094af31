/** The normalisation every domain and identifier goes through: trim white space, then,
    for domains, lower the letters. */
module Text {
  predicate IsSpace(c: char) {
    || c in {'\t', '\n', '\U{B}', '\U{C}', '\r', ' ', '\U{85}', '\U{A0}', '\U{1680}'}
    || '\U{2000}' <= c <= '\U{200A}'
    || c in {'\U{2028}', '\U{2029}', '\U{202F}', '\U{205F}', '\U{3000}'}
  }

  /** Nothing to trim at either end. */
  predicate Trimmed(s: string) {
    s != [] ==> !IsSpace(s[0]) && !IsSpace(s[|s| - 1])
  }

  function TrimLeft(s: string): (t: string)
    ensures t != [] ==> !IsSpace(t[0])
    ensures t == [] || (s != [] && t[|t| - 1] == s[|s| - 1])
  {
    if s != [] && IsSpace(s[0]) then TrimLeft(s[1..]) else s
  }

  function TrimRight(s: string): (t: string)
    ensures t != [] ==> !IsSpace(t[|t| - 1])
    ensures t <= s
  {
    if s != [] && IsSpace(s[|s| - 1]) then TrimRight(s[..|s| - 1]) else s
  }

  function TrimSpace(s: string): (t: string)
    ensures Trimmed(t)
    ensures Trimmed(s) ==> t == s
  {
    TrimRight(TrimLeft(s))
  }

  function LowerChar(c: char): (d: char)
    ensures !('A' <= d <= 'Z')
    ensures IsSpace(d) <==> IsSpace(c)
  {
    if 'A' <= c <= 'Z' then (c as int + 32) as char else c
  }

  function ToLower(s: string): (t: string)
    ensures |t| == |s|
  {
    seq(|s|, i requires 0 <= i < |s| => LowerChar(s[i]))
  }

  /** A domain as the protocol stores it. */
  function Normalize(s: string): string {
    ToLower(TrimSpace(s))
  }

  predicate Blank(s: string) {
    TrimSpace(s) == ""
  }

  /** Normalising twice changes nothing more, so a stored domain can be normalised again
      by every layer it passes through. */
  lemma NormalizeIsIdempotent(s: string)
    ensures Trimmed(Normalize(s)) && TrimSpace(Normalize(s)) == Normalize(s)
    ensures Normalize(Normalize(s)) == Normalize(s)
    ensures Normalize(s) == "" <==> Blank(s)
  {
    var t := TrimSpace(s);
    assert ToLower(ToLower(t)) == ToLower(t);
  }

  /** A string that starts with a visible character survives trimming. */
  lemma {:induction false} VisibleStartSurvives(s: string)
    requires s != [] && !IsSpace(s[0])
    ensures TrimSpace(s) != "" && TrimSpace(s)[0] == s[0]
  {
    TrimRightKeepsStart(s);
  }

  lemma {:induction false} TrimRightKeepsStart(s: string)
    requires s != [] && !IsSpace(s[0])
    ensures TrimRight(s) != "" && TrimRight(s)[0] == s[0]
  {
    if IsSpace(s[|s| - 1]) {
      TrimRightKeepsStart(s[..|s| - 1]);
    }
  }

  // ----- exactly what is trimmed and lowered -----

  predicate AllSpace(s: string) {
    forall i | 0 <= i < |s| :: IsSpace(s[i])
  }

  /** White space around a trimmed text goes, and nothing else. */
  lemma TrimExactly(before: string, t: string, after: string)
    requires AllSpace(before) && AllSpace(after) && Trimmed(t)
    ensures TrimSpace(before + t + after) == t
  {
    hide TrimLeft, TrimRight, IsSpace;
    if t == "" {
      assert before + t + after == before + after;
      TrimLeftExactly(before + after, "");
      assert (before + after) + "" == before + after;
      TrimRightExactly("", "");
      assert "" + "" == "";
    } else {
      TrimLeftExactly(before, t + after);
      assert before + (t + after) == before + t + after;
      TrimRightExactly(t, after);
    }
  }

  lemma {:induction false} TrimLeftExactly(before: string, s: string)
    requires AllSpace(before) && (s != "" ==> !IsSpace(s[0]))
    ensures TrimLeft(before + s) == s
  {
    if before == "" {
      assert before + s == s;
    } else {
      TrimLeftExactly(before[1..], s);
      assert (before + s)[1..] == before[1..] + s;
    }
  }

  lemma {:induction false} TrimRightExactly(s: string, after: string)
    requires AllSpace(after) && (s != "" ==> !IsSpace(s[|s| - 1]))
    ensures TrimRight(s + after) == s
  {
    if after == "" {
      assert s + after == s;
    } else {
      var m := |after| - 1;
      TrimRightExactly(s, after[..m]);
      assert (s + after)[..|s + after| - 1] == s + after[..m];
    }
  }

  const UPPER := "ABCDEFGHIJKLMNOPQRSTUVWXYZ"
  const LOWER := "abcdefghijklmnopqrstuvwxyz"

  /** Normalising trims, and turns each letter of one alphabet into that of the other. */
  lemma NormalizeExactly(s: string, i: nat)
    requires i < |TrimSpace(s)|
    ensures |Normalize(s)| == |TrimSpace(s)|
    ensures var c := TrimSpace(s)[i];
            && (c !in UPPER ==> Normalize(s)[i] == c)
            && forall k | 0 <= k < 26 && c == UPPER[k] :: Normalize(s)[i] == LOWER[k]
  {
    Alphabets();
  }

  lemma Alphabets()
    ensures |UPPER| == 26 && |LOWER| == 26
    ensures forall k | 0 <= k < 26 :: UPPER[k] as int == 'A' as int + k && LOWER[k] as int == 'a' as int + k
    ensures forall c: char :: c in UPPER <==> 'A' <= c <= 'Z'
  {
    forall k | 0 <= k < 26 ensures UPPER[k] as int == 'A' as int + k && LOWER[k] as int == 'a' as int + k {
    }
    forall c: char | 'A' <= c <= 'Z' ensures c in UPPER {
      assert UPPER[c as int - 'A' as int] == c;
    }
  }
}
