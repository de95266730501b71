/**
 * How the ledger compares card and payment-method names. Three comparisons are
 * in use side by side: strict `===`, `namesMatch` (both names present, then
 * trimmed and lower-cased), and an inline trim-and-lower-case comparison that
 * does not check for missing names.
 */
module Names {

  /** The characters `String.prototype.trim` removes: WhiteSpace and LineTerminator. */
  predicate IsSpace(c: char)
  {
    c == '\t' || c == '\n' || c == '\U{000B}' || c == '\U{000C}' || c == '\r' || c == ' '
    || c == '\U{00A0}' || c == '\U{1680}' || ('\U{2000}' <= c <= '\U{200A}')
    || c == '\U{2028}' || c == '\U{2029}' || c == '\U{202F}' || c == '\U{205F}'
    || c == '\U{3000}' || c == '\U{FEFF}'
  }

  /** The first position at or after `i` that is not white space, or the length of `s`. */
  function SkipSpaceForward(s: string, i: nat): (k: nat)
    requires i <= |s|
    ensures i <= k <= |s|
    ensures forall j :: i <= j < k ==> IsSpace(s[j])
    ensures k < |s| ==> !IsSpace(s[k])
    decreases |s| - i
  {
    if i < |s| && IsSpace(s[i]) then SkipSpaceForward(s, i + 1) else i
  }

  /** The position just after the last character before `j` that is not white space, or 0. */
  function SkipSpaceBackward(s: string, j: nat): (k: nat)
    requires j <= |s|
    ensures k <= j
    ensures forall m :: k <= m < j ==> IsSpace(s[m])
    ensures k > 0 ==> !IsSpace(s[k - 1])
    decreases j
  {
    if j > 0 && IsSpace(s[j - 1]) then SkipSpaceBackward(s, j - 1) else j
  }

  /** `s.trim()`: the text without leading and trailing white space. */
  function Trim(s: string): (r: string)
    ensures |r| <= |s|
  {
    var a, b := SkipSpaceForward(s, 0), SkipSpaceBackward(s, |s|);
    if a < b then s[a..b] else ""
  }

  /**
   * What trimming promises: the result is the piece of `s` between the first and
   * the last character that is not white space, everything cut off on either side
   * is white space, and the result neither starts nor ends with white space.
   */
  lemma TrimSpec(s: string)
    ensures var a, r := SkipSpaceForward(s, 0), Trim(s);
            && a + |r| <= |s| && r == s[a..a + |r|]
            && (forall k :: 0 <= k < a ==> IsSpace(s[k]))
            && (forall k :: a + |r| <= k < |s| ==> IsSpace(s[k]))
    ensures |Trim(s)| > 0 ==> !IsSpace(Trim(s)[0]) && !IsSpace(Trim(s)[|Trim(s)| - 1])
  {
    var a, b := SkipSpaceForward(s, 0), SkipSpaceBackward(s, |s|);
    if a < |s| {
      assert !IsSpace(s[a]);
      assert a < b;
    }
  }

  /** Trimming twice trims nothing more. */
  lemma TrimIdempotent(s: string)
    ensures Trim(Trim(s)) == Trim(s)
  {
    var r := Trim(s);
    TrimSpec(s);
    if |r| > 0 {
      assert SkipSpaceForward(r, 0) == 0;
      assert SkipSpaceBackward(r, |r|) == |r|;
      assert r[0..|r|] == r;
    }
  }

  /**
   * `toLowerCase` on one character, for Basic Latin, Latin-1 and Latin Extended-A:
   * capital 'İ' becomes 'i' followed by a combining dot above.
   */
  function LowerChar(c: char): (r: string)
    ensures 1 <= |r| <= 2
  {
    var n := c as int;
    if 'A' <= c <= 'Z' then [(n + 32) as char]
    else if 0xC0 <= n <= 0xDE && n != 0xD7 then [(n + 32) as char]
    else if n == 0x130 then ['i', '\U{0307}']
    else if 0x100 <= n <= 0x12E && n % 2 == 0 then [(n + 1) as char]
    else if 0x132 <= n <= 0x136 && n % 2 == 0 then [(n + 1) as char]
    else if 0x139 <= n <= 0x147 && n % 2 == 1 then [(n + 1) as char]
    else if 0x14A <= n <= 0x176 && n % 2 == 0 then [(n + 1) as char]
    else if n == 0x178 then ['\U{00FF}']
    else if 0x179 <= n <= 0x17D && n % 2 == 1 then [(n + 1) as char]
    else [c]
  }

  /** `s.toLowerCase()`. */
  function Lower(s: string): (r: string)
    ensures |s| <= |r| <= 2 * |s|
    decreases |s|
  {
    if |s| == 0 then "" else LowerChar(s[0]) + Lower(s[1..])
  }

  /** Every character `LowerChar` produces is already lower case. */
  lemma LowerCharFixed(c: char)
    ensures forall k :: 0 <= k < |LowerChar(c)| ==> LowerChar(LowerChar(c)[k]) == [LowerChar(c)[k]]
  {
  }

  lemma {:induction false} LowerAppend(a: string, b: string)
    ensures Lower(a + b) == Lower(a) + Lower(b)
    decreases |a|
  {
    if |a| > 0 {
      assert (a + b)[0] == a[0] && (a + b)[1..] == a[1..] + b;
      LowerAppend(a[1..], b);
    } else {
      assert a + b == b;
    }
  }

  /** Lower-casing twice changes nothing more. */
  lemma {:induction false} LowerIdempotent(s: string)
    ensures Lower(Lower(s)) == Lower(s)
    decreases |s|
  {
    if |s| > 0 {
      var head := LowerChar(s[0]);
      LowerIdempotent(s[1..]);
      LowerAppend(head, Lower(s[1..]));
      LowerCharFixed(s[0]);
      if |head| == 1 {
        assert Lower(head) == LowerChar(head[0]) + Lower(head[1..]);
      } else {
        assert Lower(head) == LowerChar(head[0]) + (LowerChar(head[1]) + Lower(head[2..]));
      }
    }
  }

  /** Trimmed and lower-cased, the key every loose comparison uses. */
  function Normalise(s: string): string
  {
    Lower(Trim(s))
  }

  /** The inline comparison `a.trim().toLowerCase() === b.trim().toLowerCase()`. */
  predicate SameNormalised(a: string, b: string)
  {
    Normalise(a) == Normalise(b)
  }

  /** namesMatch: both names are non-empty and agree once trimmed and lower-cased. */
  predicate NamesMatch(a: string, b: string)
  {
    a != "" && b != "" && SameNormalised(a, b)
  }

  /** The three comparisons the ledger uses, named so that each call site can say which one it uses. */
  datatype Comparison = Strict | Loose | Normalised

  predicate Compare(cmp: Comparison, a: string, b: string)
  {
    match cmp
    case Strict => a == b
    case Loose => NamesMatch(a, b)
    case Normalised => SameNormalised(a, b)
  }

  /**
   * Strict equality of non-empty names implies the loose match, and the loose
   * match implies the normalised one; neither converse holds.
   */
  lemma ComparisonsNested(a: string, b: string)
    ensures a == b && a != "" ==> NamesMatch(a, b)
    ensures NamesMatch(a, b) ==> SameNormalised(a, b)
    ensures NamesMatch(a, b) <==> a != "" && b != "" && SameNormalised(a, b)
  {
  }

  /**
   * The comparisons disagree: a name in different case with a trailing space
   * matches loosely but not strictly, and two blank names match after
   * normalising but not loosely.
   */
  lemma ComparisonsDisagree()
    ensures NamesMatch("A", "a ") && "A" != "a "
    ensures SameNormalised("", " ") && !NamesMatch("", " ")
  {
    NormaliseExamples();
  }

  lemma NormaliseExamples()
    ensures Normalise("A") == "a" && Normalise("a ") == "a"
    ensures Normalise("") == "" && Normalise(" ") == ""
  {
    assert Trim("a ") == "a" by {
      assert SkipSpaceForward("a ", 0) == 0;
      assert SkipSpaceBackward("a ", 2) == 1;
      assert "a "[0..1] == "a";
    }
    assert Trim("A") == "A" by {
      assert SkipSpaceForward("A", 0) == 0;
      assert SkipSpaceBackward("A", 1) == 1;
      assert "A"[0..1] == "A";
    }
    assert Lower("A") == "a";
    assert Lower("a") == "a";
  }

  /** The loose match is symmetric and transitive; on non-empty names it is reflexive. */
  lemma NamesMatchEquivalence(a: string, b: string, c: string)
    ensures a != "" ==> NamesMatch(a, a)
    ensures NamesMatch(a, b) ==> NamesMatch(b, a)
    ensures NamesMatch(a, b) && NamesMatch(b, c) ==> NamesMatch(a, c)
  {
  }

  /** The normalised key is stable: normalising it again gives it back. */
  lemma NormaliseIdempotent(s: string)
    ensures Normalise(Normalise(s)) == Normalise(s)
  {
    var t := Trim(s);
    var l := Lower(t);
    TrimSpec(s);
    LowerIdempotent(t);
    LowerKeepsEnds(t);
    if |l| > 0 {
      assert SkipSpaceForward(l, 0) == 0;
      assert SkipSpaceBackward(l, |l|) == |l|;
      assert l[0..|l|] == l;
    }
  }

  /** Lower-casing maps white space to itself and everything else to non-white space. */
  lemma LowerCharSpace(c: char)
    ensures IsSpace(c) ==> LowerChar(c) == [c]
    ensures !IsSpace(c) ==> forall k :: 0 <= k < |LowerChar(c)| ==> !IsSpace(LowerChar(c)[k])
  {
  }

  /** A string that neither starts nor ends with white space keeps that property when lower-cased. */
  lemma LowerKeepsEnds(t: string)
    requires |t| > 0 ==> !IsSpace(t[0]) && !IsSpace(t[|t| - 1])
    ensures |Lower(t)| > 0 ==> !IsSpace(Lower(t)[0]) && !IsSpace(Lower(t)[|Lower(t)| - 1])
  {
    if |t| > 0 {
      var init := t[..|t| - 1];
      var last := t[|t| - 1];
      assert t == init + [last];
      LowerAppend(init, [last]);
      assert Lower([last]) == LowerChar(last);
      LowerCharSpace(t[0]);
      LowerCharSpace(last);
      assert Lower(t)[0] == LowerChar(t[0])[0];
    }
  }
}
