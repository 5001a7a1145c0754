/** The spam classifier (`containsSpam`): a text is spam when any of four
    case-insensitive regular expressions finds a match in it. Each pattern is
    given by what it matches at a start position; a regular expression test
    succeeds when some start position matches. */
module Spam {
  import opened Text

  const Blocklist: seq<string> := ["viagra", "cialis", "porn", "xxx", "casino", "bitcoin"]
  const AbuseTlds: seq<string> := ["xyz", "top", "click", "loan", "win"]

  /** `\bw\b` at `i`, for a word `w` of letters. */
  predicate WholeWordAt(t: string, i: nat, w: string)
  {
    && LiteralAt(t, i, w)
    && (i == 0 || !IsWordChar(t[i - 1]))
    && (i + |w| == |t| || !IsWordChar(t[i + |w|]))
  }

  /** `\b(viagra|cialis|porn|xxx|casino|bitcoin)\b` */
  predicate BlockedWordAt(t: string, i: nat)
  {
    exists k | 0 <= k < |Blocklist| :: WholeWordAt(t, i, Blocklist[k])
  }

  /** `https?:\/\/` at `i`, ending just before `p`. */
  predicate SchemeAt(t: string, i: nat, p: nat)
  {
    (LiteralAt(t, i, "http://") && p == i + 7) || (LiteralAt(t, i, "https://") && p == i + 8)
  }

  /** `(xyz|top|click|loan|win)` at `j`. */
  predicate AbuseTldAt(t: string, j: nat)
  {
    exists k | 0 <= k < |AbuseTlds| :: LiteralAt(t, j, AbuseTlds[k])
  }

  /** `https?:\/\/[^\s]+\.(xyz|top|click|loan|win)`: a scheme, a non-empty run
      without white space, then a dot at `d` and a listed top-level domain.
      The domain needs no boundary after it. */
  predicate SuspiciousUrlAt(t: string, i: nat)
  {
    exists p, d | i < p < d < |t| ::
      SchemeAt(t, i, p) && NoSpace(t, p, d) && t[d] == '.' && AbuseTldAt(t, d + 1)
  }

  /** `<a\s+href`: the white-space run ends at `e`. */
  predicate HtmlAnchorAt(t: string, i: nat)
  {
    exists e | i + 2 < e <= |t| ::
      LiteralAt(t, i, "<a") && AllSpace(t, i + 2, e) && LiteralAt(t, e, "href")
  }

  /** `\[url=` */
  predicate BbCodeUrlAt(t: string, i: nat)
  {
    LiteralAt(t, i, "[url=")
  }

  datatype Pattern = BlockedWord | SuspiciousUrl | HtmlAnchor | BbCodeUrl

  /** The patterns in the order the classifier tries them. */
  const Patterns: seq<Pattern> := [BlockedWord, SuspiciousUrl, HtmlAnchor, BbCodeUrl]

  predicate MatchesAt(pat: Pattern, t: string, i: nat)
  {
    match pat
    case BlockedWord => BlockedWordAt(t, i)
    case SuspiciousUrl => SuspiciousUrlAt(t, i)
    case HtmlAnchor => HtmlAnchorAt(t, i)
    case BbCodeUrl => BbCodeUrlAt(t, i)
  }

  /** `pattern.test(t)`: a match starts somewhere in `t`. */
  predicate Matches(pat: Pattern, t: string)
  {
    exists i: nat | i <= |t| :: MatchesAt(pat, t, i)
  }

  /** The classifier's verdict: some pattern matches. */
  predicate IsSpam(t: string)
  {
    exists k | 0 <= k < |Patterns| :: Matches(Patterns[k], t)
  }

  /** `pattern.test(t)` as a left-to-right search for a start position. */
  method Test(pat: Pattern, t: string) returns (found: bool)
    ensures found <==> Matches(pat, t)
  {
    var i: nat := 0;
    while i <= |t|
      invariant i <= |t| + 1
      invariant forall j: nat | j < i :: !MatchesAt(pat, t, j)
    {
      if MatchesAt(pat, t, i) {
        return true;
      }
      i := i + 1;
    }
    return false;
  }

  /** `containsSpam(t)`: `spamPatterns.some(pattern => pattern.test(t))`. */
  method ContainsSpam(t: string) returns (spam: bool)
    ensures spam <==> IsSpam(t)
  {
    var k := 0;
    while k < |Patterns|
      invariant k <= |Patterns|
      invariant forall j | 0 <= j < k :: !Matches(Patterns[j], t)
    {
      var found := Test(Patterns[k], t);
      if found {
        return true;
      }
      k := k + 1;
    }
    return false;
  }

  /** A blocklisted word in any letter case is caught. */
  lemma BlockedWordExample()
    ensures IsSpam("Cheap VIAGRA here")
  {
    var t := "Cheap VIAGRA here";
    assert LiteralAt(t, 6, Blocklist[0]);
    assert WholeWordAt(t, 6, Blocklist[0]);
    assert MatchesAt(BlockedWord, t, 6);
    assert Matches(Patterns[0], t);
  }

  /** A word merely containing a blocklisted word is not caught by the word pattern. */
  lemma WholeWordOnlyExample()
    ensures !Matches(BlockedWord, "bitcoins")
  {
    var b := "bitcoins";
    forall i: nat | i <= |b|
      ensures !MatchesAt(BlockedWord, b, i)
    {
      forall k | 0 <= k < |Blocklist|
        ensures !WholeWordAt(b, i, Blocklist[k])
      {
        var w := Blocklist[k];
        if i == 0 && k == 5 {
          assert IsWordChar(b[7]);
        } else if i + |w| <= |b| {
          assert w[0] != LowerAscii(b[i]) || w[1] != LowerAscii(b[i + 1]) || w[2] != LowerAscii(b[i + 2]);
        }
      }
    }
  }

  /** A link into a listed top-level domain is caught, the dot being found by
      backtracking past an earlier one. */
  lemma SuspiciousUrlExample()
    ensures IsSpam("http://x.y.Top")
  {
    var u := "http://x.y.Top";
    assert SchemeAt(u, 0, 7);
    assert LiteralAt(u, 11, AbuseTlds[1]);
    assert NoSpace(u, 7, 10) by {
      assert !IsSpace(u[7]) && !IsSpace(u[8]) && !IsSpace(u[9]);
    }
    assert SuspiciousUrlAt(u, 0);
    assert MatchesAt(SuspiciousUrl, u, 0);
    assert Matches(Patterns[1], u);
  }

  /** An anchor tag in any case, with any white space before `href`, is caught. */
  lemma HtmlAnchorExample()
    ensures IsSpam("<A \thref='x'>")
  {
    var a := "<A \thref='x'>";
    assert LiteralAt(a, 0, "<a") && AllSpace(a, 2, 4) && LiteralAt(a, 4, "href");
    assert MatchesAt(HtmlAnchor, a, 0);
    assert Matches(Patterns[2], a);
  }

  lemma BbCodeUrlExample()
    ensures IsSpam("[URL=x]")
  {
    assert MatchesAt(BbCodeUrl, "[URL=x]", 0);
    assert Matches(Patterns[3], "[URL=x]");
  }
}
