/**
 * LinkedIn's little-text commentary: the escaping of a caption before it is
 * posted (providers/linkedin.py) and the length the composer counts for it
 * before that (providers/__init__.py).
 */
module CaptionEscaping {

  const BACKSLASH: char := '\\'
  const RESERVED: string := "|{}@[]()<>#*_~"

  /** What the escaped-characters table holds for both LinkedIn platforms. */
  const ESCAPED: string := [BACKSLASH] + RESERVED

  const ESCAPING_PLATFORMS: set<string> := {"linkedin_personal", "linkedin_company"}

  // ---------------------------------------------------------------------
  // Replacing one character at a time
  // ---------------------------------------------------------------------

  /** Every occurrence of `ch` gets a backslash in front of it. */
  function Prefixed(ch: char, s: string): (r: string)
    ensures |s| <= |r|
  {
    if s == "" then "" else (if s[0] == ch then [BACKSLASH, ch] else [s[0]]) + Prefixed(ch, s[1..])
  }

  /** The characters of `order`, replaced one after the other. */
  function Replaced(order: string, s: string): (r: string)
  {
    if order == "" then s else Replaced(order[1..], Prefixed(order[0], s))
  }

  /** One pass over the text, looking at each character once. */
  function Escape(chars: string, s: string): (r: string)
    ensures |s| <= |r|
  {
    if s == "" then "" else (if s[0] in chars then [BACKSLASH, s[0]] else [s[0]]) + Escape(chars, s[1..])
  }

  method EscapeCommentary(text: string) returns (escaped: string)
    ensures escaped == Escape(ESCAPED, text)
  {
    if text == "" {
      return text;
    }
    escaped := Prefixed(BACKSLASH, text);
    PrefixedIsEscape(BACKSLASH, text);
    assert [BACKSLASH] + RESERVED[..0] == [BACKSLASH];
    for i := 0 to |RESERVED|
      invariant escaped == Escape([BACKSLASH] + RESERVED[..i], text)
    {
      NextInTable(i);
      NextReplacement([BACKSLASH] + RESERVED[..i], RESERVED[i], text);
      escaped := Prefixed(RESERVED[i], escaped);
    }
    assert RESERVED[..|RESERVED|] == RESERVED;
  }

  /** No character stands in the table twice. */
  lemma TableIsDistinct()
    ensures Distinct(ESCAPED)
  {
  }

  lemma NextInTable(i: nat)
    requires i < |RESERVED|
    ensures RESERVED[i] != BACKSLASH && RESERVED[i] !in [BACKSLASH] + RESERVED[..i]
    ensures [BACKSLASH] + RESERVED[..i] + [RESERVED[i]] == [BACKSLASH] + RESERVED[..i + 1]
  {
    TableIsDistinct();
    assert ESCAPED[0] == BACKSLASH && ESCAPED[i + 1] == RESERVED[i];
    forall j | 0 <= j < i ensures RESERVED[j] != RESERVED[i] {
      assert ESCAPED[j + 1] == RESERVED[j];
    }
  }

  lemma {:induction false} PrefixedIsEscape(ch: char, s: string)
    ensures Prefixed(ch, s) == Escape([ch], s)
  {
    if s != "" {
      PrefixedIsEscape(ch, s[1..]);
    }
  }

  lemma {:induction false} PrefixedConcat(ch: char, a: string, b: string)
    ensures Prefixed(ch, a + b) == Prefixed(ch, a) + Prefixed(ch, b)
  {
    if a == "" {
      assert a + b == b;
    } else {
      assert (a + b)[1..] == a[1..] + b;
      PrefixedConcat(ch, a[1..], b);
    }
  }

  /** One more replacement widens the one-pass escape by one character. */
  lemma {:induction false} NextReplacement(chars: string, ch: char, s: string)
    requires ch !in chars && ch != BACKSLASH
    ensures Prefixed(ch, Escape(chars, s)) == Escape(chars + [ch], s)
  {
    if s != "" {
      var head := if s[0] in chars then [BACKSLASH, s[0]] else [s[0]];
      PrefixedConcat(ch, head, Escape(chars, s[1..]));
      NextReplacement(chars, ch, s[1..]);
      assert Prefixed(ch, head) == if s[0] in chars + [ch] then [BACKSLASH, s[0]] else [s[0]] by {
        if s[0] in chars {
          assert head[1..] == [s[0]] && head[1..][1..] == "";
        } else {
          assert head[1..] == "";
        }
      }
    }
  }

  // ---------------------------------------------------------------------
  // The order of the replacements
  // ---------------------------------------------------------------------

  /** How many characters of `s` are among `chars`. */
  function Among(chars: string, s: string): (n: nat)
    ensures n <= |s|
  {
    if s == "" then 0 else (if s[0] in chars then 1 else 0) + Among(chars, s[1..])
  }

  ghost predicate Distinct(s: string) {
    forall i, j :: 0 <= i < j < |s| ==> s[i] != s[j]
  }

  lemma {:induction false} ReplacedConcat(order: string, a: string, b: string)
    ensures Replaced(order, a + b) == Replaced(order, a) + Replaced(order, b)
  {
    if order != "" {
      PrefixedConcat(order[0], a, b);
      ReplacedConcat(order[1..], Prefixed(order[0], a), Prefixed(order[0], b));
    }
  }

  lemma {:induction false} ReplacedInParts(first: string, second: string, s: string)
    ensures Replaced(first + second, s) == Replaced(second, Replaced(first, s))
  {
    if first == "" {
      assert first + second == second;
    } else {
      assert (first + second)[1..] == first[1..] + second;
      ReplacedInParts(first[1..], second, Prefixed(first[0], s));
    }
  }

  /** Replacing characters other than the backslash, in any order. */
  lemma {:induction false} ReplacedIsEscape(done: string, order: string, s: string)
    requires Distinct(done + order) && BACKSLASH !in order
    decreases |order|
    ensures Replaced(order, Escape(done, s)) == Escape(done + order, s)
  {
    if order == "" {
      assert done + order == done;
    } else {
      assert (done + order)[|done|] == order[0];
      forall i | 0 <= i < |done| ensures done[i] != order[0] {
        assert (done + order)[i] == done[i];
      }
      NextReplacement(done, order[0], s);
      assert done + [order[0]] + order[1..] == done + order;
      ReplacedIsEscape(done + [order[0]], order[1..], s);
    }
  }

  lemma {:induction false} EscapeNothing(s: string)
    ensures Escape("", s) == s
  {
    if s != "" {
      EscapeNothing(s[1..]);
    }
  }

  /** Escaping and then doubling the backslashes costs one character more for
      every character that was escaped ahead of the backslash. */
  lemma {:induction false} LateBackslashCost(before: string, s: string)
    requires BACKSLASH !in before
    ensures Prefixed(BACKSLASH, Escape(before, s)) == Escape(before + [BACKSLASH], s)
            <==> Among(before, s) == 0
    ensures |Prefixed(BACKSLASH, Escape(before, s))|
            == |Escape(before + [BACKSLASH], s)| + Among(before, s)
  {
    if s != "" {
      var head := if s[0] in before then [BACKSLASH, s[0]] else [s[0]];
      PrefixedConcat(BACKSLASH, head, Escape(before, s[1..]));
      LateBackslashCost(before, s[1..]);
      if s[0] in before {
        assert head[1..] == [s[0]] && head[1..][1..] == "";
        assert |Prefixed(BACKSLASH, head)| == 3;
      } else {
        assert head[1..] == "";
      }
    }
  }

  lemma {:induction false} EscapeLength(chars: string, s: string)
    ensures |Escape(chars, s)| == |s| + Among(chars, s)
  {
    if s != "" {
      EscapeLength(chars, s[1..]);
    }
  }

  /**
   * The replacement of the backslash has to come first: with the reserved
   * characters `before` replaced ahead of it, a text comes out as the one-pass
   * escape exactly when it holds none of them.
   */
  lemma {:induction false} OrderMattersExactly(before: string, after: string, s: string)
    requires Distinct(before + [BACKSLASH] + after)
    ensures Replaced(before + [BACKSLASH] + after, s) == Escape(before + [BACKSLASH] + after, s)
            <==> Among(before, s) == 0
  {
    var order := before + [BACKSLASH] + after;
    assert order[|before|] == BACKSLASH;
    forall i | 0 <= i < |before| ensures before[i] != BACKSLASH {
      assert order[i] == before[i];
    }
    forall i | 0 <= i < |after| ensures after[i] != BACKSLASH {
      assert order[|before| + 1 + i] == after[i];
    }
    EscapeNothing(s);
    ReplacedIsEscape("", before, s) by { assert "" + before == before == order[..|before|]; }
    assert "" + before == before;
    ReplacedInParts(before, [BACKSLASH] + after, s);
    assert before + ([BACKSLASH] + after) == order;
    var middle := Escape(before, s);
    assert ([BACKSLASH] + after)[1..] == after;
    assert Replaced(order, s) == Replaced(after, Prefixed(BACKSLASH, middle));
    LateBackslashCost(before, s);
    ReplacedIsEscape(before + [BACKSLASH], after, s);
    if Among(before, s) != 0 {
      ReplacedGrows(after, before + [BACKSLASH], before, s);
    }
  }

  lemma {:induction false} AmongConcat(chars: string, a: string, b: string)
    ensures Among(chars, a + b) == Among(chars, a) + Among(chars, b)
  {
    if a == "" {
      assert a + b == b;
    } else {
      assert (a + b)[1..] == a[1..] + b;
      AmongConcat(chars, a[1..], b);
    }
  }

  /** Later replacements do not look at backslashes, so the extra ones stay. */
  lemma {:induction false} ReplacedGrows(after: string, chars: string, before: string, s: string)
    requires chars == before + [BACKSLASH]
    requires Distinct(chars + after) && BACKSLASH !in after
    ensures |Replaced(after, Prefixed(BACKSLASH, Escape(before, s)))|
            == |Escape(chars + after, s)| + Among(before, s)
  {
    assert forall i :: 0 <= i < |before| ==> (chars + after)[i] == before[i];
    assert (chars + after)[|before|] == BACKSLASH;
    assert forall i :: 0 <= i < |after| ==> (chars + after)[|chars| + i] == after[i];
    var twice := Prefixed(BACKSLASH, Escape(before, s));
    EscapeNothing(twice);
    assert "" + after == after;
    ReplacedIsEscape("", after, twice);
    EscapeLength(after, twice);
    LateBackslashCost(before, s);
    EscapeLength(chars, s);
    EscapeLength(chars + after, s);
    AmongAfter(after, before, s);
    AmongUnion(chars, after, s);
  }

  lemma {:induction false} AmongUnion(a: string, b: string, s: string)
    requires forall c :: c in a ==> c !in b
    ensures Among(a + b, s) == Among(a, s) + Among(b, s)
  {
    if s != "" {
      AmongUnion(a, b, s[1..]);
    }
  }

  lemma {:induction false} AmongAfter(after: string, before: string, s: string)
    requires BACKSLASH !in after && BACKSLASH !in before
    requires forall c :: c in before ==> c !in after
    ensures Among(after, Prefixed(BACKSLASH, Escape(before, s))) == Among(after, s)
  {
    if s != "" {
      var head := if s[0] in before then [BACKSLASH, s[0]] else [s[0]];
      PrefixedConcat(BACKSLASH, head, Escape(before, s[1..]));
      AmongConcat(after, Prefixed(BACKSLASH, head), Prefixed(BACKSLASH, Escape(before, s[1..])));
      AmongAfter(after, before, s[1..]);
      if s[0] in before {
        assert head[1..] == [s[0]] && head[1..][1..] == "";
        assert Prefixed(BACKSLASH, head) == [BACKSLASH, BACKSLASH, s[0]];
        AmongConcat(after, [BACKSLASH, BACKSLASH], [s[0]]);
        AmongConcat(after, [BACKSLASH], [BACKSLASH]);
      } else {
        assert head[1..] == "";
        AmongConcat(after, [BACKSLASH], [s[0]]);
      }
    }
  }

  // ---------------------------------------------------------------------
  // What LinkedIn reads
  // ---------------------------------------------------------------------

  /** The commentary as rendered: a backslash makes the next character
      literal, and the text stops at the first reserved character without one. */
  function Rendered(s: string): (r: string)
  {
    if s == "" then ""
    else if s[0] == BACKSLASH && 1 < |s| then [s[1]] + Rendered(s[2..])
    else if s[0] in RESERVED then ""
    else [s[0]] + Rendered(s[1..])
  }

  /** An escaped caption is rendered whole, as the user typed it. */
  lemma {:induction false} RenderedInverts(text: string)
    ensures Rendered(Escape(ESCAPED, text)) == text
  {
    if text != "" {
      var rest := Escape(ESCAPED, text[1..]);
      RenderedInverts(text[1..]);
      if text[0] in ESCAPED {
        var whole := [BACKSLASH, text[0]] + rest;
        assert whole[2..] == rest;
      } else {
        var whole := [text[0]] + rest;
        assert text[0] != BACKSLASH && text[0] !in RESERVED by {
          assert ESCAPED[0] == BACKSLASH;
          assert forall i :: 0 <= i < |RESERVED| ==> ESCAPED[i + 1] == RESERVED[i];
        }
        assert whole[1..] == rest;
      }
    }
  }

  /** No two captions are published as the same commentary. */
  lemma EscapeIsInjective(a: string, b: string)
    requires Escape(ESCAPED, a) == Escape(ESCAPED, b)
    ensures a == b
  {
    RenderedInverts(a);
    RenderedInverts(b);
  }

  /** Sent without escaping, a caption survives exactly when it has no
      reserved character (and no backslash that has something after it). */
  lemma {:induction false} UnescapedSurvivesIff(text: string)
    ensures Rendered(text) == text
            <==> forall i :: 0 <= i < |text| ==> text[i] !in RESERVED && (text[i] == BACKSLASH ==> i == |text| - 1)
  {
    if text != "" {
      var rest := text[1..];
      RenderedShrinks(text);
      if text[0] == BACKSLASH && 1 < |text| {
        RenderedShrinks(text[2..]);
      } else if text[0] !in RESERVED {
        UnescapedSurvivesIff(rest);
        if Rendered(rest) == rest {
          forall i | 0 <= i < |text|
            ensures text[i] !in RESERVED && (text[i] == BACKSLASH ==> i == |text| - 1)
          {
            if 0 < i {
              assert text[i] == rest[i - 1];
            }
          }
        } else {
          assert text == [text[0]] + rest;
          var i :| 0 <= i < |rest| && !(rest[i] !in RESERVED && (rest[i] == BACKSLASH ==> i == |rest| - 1));
          assert text[i + 1] == rest[i];
        }
      }
    }
  }

  lemma {:induction false} RenderedShrinks(s: string)
    ensures |Rendered(s)| <= |s|
  {
    if s != "" {
      if s[0] == BACKSLASH && 1 < |s| {
        RenderedShrinks(s[2..]);
      } else if s[0] !in RESERVED {
        RenderedShrinks(s[1..]);
      }
    }
  }

  // ---------------------------------------------------------------------
  // Escapes are themselves not escaped
  // ---------------------------------------------------------------------

  /** How many backslashes stand directly before position `i`. */
  function BackslashRun(s: string, i: nat): (n: nat)
    requires i <= |s|
    ensures n <= i
  {
    if i == 0 || s[i - 1] != BACKSLASH then 0 else 1 + BackslashRun(s, i - 1)
  }

  lemma {:induction false} RunAcross(p: string, s: string, j: nat)
    requires j <= |s|
    ensures BackslashRun(p + s, |p| + j)
            == if BackslashRun(s, j) == j then j + BackslashRun(p, |p|) else BackslashRun(s, j)
  {
    if j == 0 {
      RunOfPrefix(p, s, |p|);
    } else {
      assert (p + s)[|p| + j - 1] == s[j - 1];
      RunAcross(p, s, j - 1);
    }
  }

  lemma {:induction false} RunOfPrefix(p: string, s: string, i: nat)
    requires i <= |p|
    ensures BackslashRun(p + s, i) == BackslashRun(p, i)
  {
    if 0 < i {
      assert (p + s)[i - 1] == p[i - 1];
      RunOfPrefix(p, s, i - 1);
    }
  }

  /** In the output, a character other than the backslash stands behind an odd
      run of backslashes exactly when it is reserved: the backslash before it
      is an escape and is not itself escaped. */
  lemma ReservedIsEscapedOnce(text: string, i: nat)
    requires i < |Escape(ESCAPED, text)| && Escape(ESCAPED, text)[i] != BACKSLASH
    ensures BackslashRun(Escape(ESCAPED, text), i) % 2 == 1 <==> Escape(ESCAPED, text)[i] in "|{}@[]()<>#*_~"
  {
    EscapedMembers(BACKSLASH);
    EscapedOnce(ESCAPED, text, i);
    EscapedMembers(Escape(ESCAPED, text)[i]);
  }

  lemma {:induction false} EscapedOnce(chars: string, text: string, i: nat)
    requires BACKSLASH in chars && i < |Escape(chars, text)| && Escape(chars, text)[i] != BACKSLASH
    ensures BackslashRun(Escape(chars, text), i) % 2 == 1 <==> Escape(chars, text)[i] in chars
  {
    var rest := Escape(chars, text[1..]);
    var head := if text[0] in chars then [BACKSLASH, text[0]] else [text[0]];
    RunInHead(text[0]);
    if i < |head| {
      RunOfPrefix(head, rest, i);
    } else {
      EscapedOnce(chars, text[1..], i - |head|);
      RunAcross(head, rest, i - |head|);
    }
  }

  lemma RunInHead(c: char)
    ensures BackslashRun([BACKSLASH, c], 1) == 1
    ensures BackslashRun([BACKSLASH, c], 2) == if c == BACKSLASH then 2 else 0
    ensures BackslashRun([c], 0) == 0
    ensures c != BACKSLASH ==> BackslashRun([c], 1) == 0
  {
    assert [BACKSLASH, c][0] == BACKSLASH && [BACKSLASH, c][1] == c;
    assert BackslashRun([BACKSLASH, c], 0) == 0;
  }

  lemma EscapedMembers(c: char)
    ensures c in ESCAPED <==> c == BACKSLASH || c in RESERVED
  {
    assert ESCAPED[0] == BACKSLASH;
    assert forall i :: 0 <= i < |RESERVED| ==> ESCAPED[i + 1] == RESERVED[i];
  }

  // ---------------------------------------------------------------------
  // The length the composer counts
  // ---------------------------------------------------------------------

  function Count(text: string, ch: char): (n: nat)
  {
    if text == "" then 0 else (if text[0] == ch then 1 else 0) + Count(text[1..], ch)
  }

  function SumOfCounts(text: string, chars: string): (n: nat)
  {
    if chars == "" then 0 else Count(text, chars[0]) + SumOfCounts(text, chars[1..])
  }

  function CaptionWireLength(platform: string, text: string): (n: nat)
  {
    if platform in ESCAPING_PLATFORMS then |text| + SumOfCounts(text, ESCAPED) else |text|
  }

  lemma {:induction false} CountIsAmong(text: string, ch: char)
    ensures Count(text, ch) == Among([ch], text)
  {
    if text != "" {
      CountIsAmong(text[1..], ch);
    }
  }

  /** Counting per character and adding up meets every character once, because
      no character stands in the table twice. */
  lemma {:induction false} CountsAreAmong(text: string, chars: string)
    requires Distinct(chars)
    ensures SumOfCounts(text, chars) == Among(chars, text)
  {
    if chars == "" {
      AmongNothing(text);
    } else {
      CountsAreAmong(text, chars[1..]);
      CountIsAmong(text, chars[0]);
      AmongUnion([chars[0]], chars[1..], text);
      assert [chars[0]] + chars[1..] == chars;
    }
  }

  lemma {:induction false} AmongNothing(text: string)
    ensures Among("", text) == 0
  {
    if text != "" {
      AmongNothing(text[1..]);
    }
  }

  /** The composer counts exactly what goes out: the escaped commentary on
      LinkedIn, and the text itself everywhere else. */
  lemma WireLengthIsPublishedLength(platform: string, text: string)
    ensures CaptionWireLength(platform, text)
            == if platform == "linkedin_personal" || platform == "linkedin_company" then |Escape(ESCAPED, text)|
               else |text|
  {
    TableIsDistinct();
    CountsAreAmong(text, ESCAPED);
    EscapeLength(ESCAPED, text);
  }
}
