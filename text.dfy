/** String operations the bot takes from the JavaScript runtime:
    `String.prototype.replaceAll` with a string pattern, and the decimal
    rendering that `number + string` performs on a non-negative integer. */
module Text {

  /** `p` occurs in `s` starting at index `i`. */
  predicate OccursAt(s: string, p: string, i: nat) {
    i + |p| <= |s| && s[i..i + |p|] == p
  }

  /** `p` occurs somewhere in `s`. */
  predicate Occurs(s: string, p: string) {
    exists i: nat | i <= |s| :: OccursAt(s, p, i)
  }

  predicate EndsWith(s: string, p: string) {
    |p| <= |s| && s[|s| - |p|..] == p
  }

  /** `s.replaceAll(pat, rep)` for a non-empty string pattern: the string is
      scanned from the left and every non-overlapping occurrence of `pat` is
      replaced by `rep`; the replacement text is never rescanned. */
  function ReplaceAll(s: string, pat: string, rep: string): string
    requires pat != []
    decreases |s|
  {
    if |s| < |pat| then s
    else if s[..|pat|] == pat then rep + ReplaceAll(s[|pat|..], pat, rep)
    else [s[0]] + ReplaceAll(s[1..], pat, rep)
  }

  /** An occurrence in the tail of a string is an occurrence in the string. */
  lemma OccursInTail(s: string, p: string)
    requires s != [] && Occurs(s[1..], p)
    ensures Occurs(s, p)
  {
    var i: nat :| i <= |s[1..]| && OccursAt(s[1..], p, i);
    assert s[1..][i..i + |p|] == s[i + 1..i + 1 + |p|];
    assert OccursAt(s, p, i + 1);
  }

  /** A string embedded in a larger one keeps its occurrences. */
  lemma OccursWithin(a: string, b: string, c: string, p: string)
    requires Occurs(b, p)
    ensures Occurs(a + b + c, p)
  {
    var i: nat :| i <= |b| && OccursAt(b, p, i);
    var s := a + b + c;
    assert s[|a| + i..|a| + i + |p|] == b[i..i + |p|];
    assert OccursAt(s, p, |a| + i);
  }

  /** Whatever contains `p` contains every prefix of `p`. */
  lemma OccursPrefix(s: string, p: string, k: nat)
    requires k <= |p| && Occurs(s, p)
    ensures Occurs(s, p[..k])
  {
    var i: nat :| i <= |s| && OccursAt(s, p, i);
    assert s[i..i + k] == s[i..i + |p|][..k];
    assert OccursAt(s, p[..k], i);
  }

  /** Text that does not contain the pattern is left as it is. */
  lemma {:induction false} ReplaceAllAbsent(s: string, pat: string, rep: string)
    requires pat != [] && !Occurs(s, pat)
    ensures ReplaceAll(s, pat, rep) == s
    decreases |s|
  {
    if |s| >= |pat| {
      assert !OccursAt(s, pat, 0);
      if Occurs(s[1..], pat) {
        OccursInTail(s, pat);
      }
      ReplaceAllAbsent(s[1..], pat, rep);
      assert [s[0]] + s[1..] == s;
    }
  }

  /** A prefix free of the pattern's first character is copied through
      unchanged, and the scan resumes right after it. */
  lemma {:induction false} ReplaceAllSkip(a: string, t: string, pat: string, rep: string)
    requires pat != [] && pat[0] !in a
    ensures ReplaceAll(a + t, pat, rep) == a + ReplaceAll(t, pat, rep)
    decreases |a|
  {
    if a != [] {
      var s := a + t;
      assert s[0] == a[0];
      if |s| >= |pat| {
        assert s[..|pat|][0] != pat[0];
        assert s[1..] == a[1..] + t;
        assert s[..|pat|] != pat;
        ReplaceAllSkip(a[1..], t, pat, rep);
        calc {
          ReplaceAll(s, pat, rep);
          [a[0]] + ReplaceAll(a[1..] + t, pat, rep);
          [a[0]] + (a[1..] + ReplaceAll(t, pat, rep));
          { assert [a[0]] + a[1..] == a; }
          a + ReplaceAll(t, pat, rep);
        }
      } else {
        assert ReplaceAll(t, pat, rep) == t;
      }
    } else {
      assert a + t == t;
    }
  }

  /** Text that lacks the pattern's first character lacks the pattern. */
  lemma AbsentWithoutHead(s: string, p: string)
    requires p != [] && p[0] !in s
    ensures !Occurs(s, p)
  {
    forall i: nat | i <= |s| ensures !OccursAt(s, p, i) {
      if i + |p| <= |s| {
        assert s[i..i + |p|][0] == s[i];
      }
    }
  }

  /** `items.join(sep)`. */
  function JoinWith(items: seq<string>, sep: string): string {
    if items == [] then ""
    else if |items| == 1 then items[0]
    else items[0] + sep + JoinWith(items[1..], sep)
  }

  /** Every joined item can be found in the joined text. */
  lemma {:induction false} JoinWithLists(items: seq<string>, sep: string, k: nat)
    requires k < |items|
    ensures Occurs(JoinWith(items, sep), items[k])
    decreases |items|
  {
    if |items| == 1 || k == 0 {
      var s := JoinWith(items, sep);
      assert s[..|items[0]|] == items[0];
      assert OccursAt(s, items[0], 0);
    } else {
      JoinWithLists(items[1..], sep, k - 1);
      OccursWithin(items[0] + sep, JoinWith(items[1..], sep), "", items[k]);
      assert items[0] + sep + JoinWith(items[1..], sep) + "" == JoinWith(items, sep);
    }
  }

  /** When the pattern's first character occurs nowhere else in it, an
      occurrence cannot start inside a text free of the pattern and run on
      into a following occurrence: the scan copies that text and then
      replaces the occurrence. */
  lemma {:induction false} ReplaceAllNext(a: string, t: string, pat: string, rep: string)
    requires pat != [] && pat[0] !in pat[1..] && !Occurs(a, pat)
    ensures ReplaceAll(a + (pat + t), pat, rep) == a + (rep + ReplaceAll(t, pat, rep))
    decreases |a|
  {
    var s := a + (pat + t);
    if a == [] {
      assert s == pat + t && s[..|pat|] == pat && s[|pat|..] == t;
    } else {
      NoStraddle(a, pat + t, pat);
      assert s[1..] == a[1..] + (pat + t);
      if Occurs(a[1..], pat) {
        OccursInTail(a, pat);
      }
      ReplaceAllNext(a[1..], t, pat, rep);
      calc {
        ReplaceAll(s, pat, rep);
        [a[0]] + ReplaceAll(a[1..] + (pat + t), pat, rep);
        [a[0]] + (a[1..] + (rep + ReplaceAll(t, pat, rep)));
        { assert [a[0]] + a[1..] == a; }
        a + (rep + ReplaceAll(t, pat, rep));
      }
    }
  }

  /** A non-empty text free of the pattern, followed by text that starts
      with the pattern, does not itself start with the pattern. */
  lemma NoStraddle(a: string, u: string, pat: string)
    requires pat != [] && pat[0] !in pat[1..] && !Occurs(a, pat)
    requires a != [] && |pat| <= |u| && u[..|pat|] == pat
    ensures (a + u)[..|pat|] != pat
  {
    var s := a + u;
    if |a| >= |pat| {
      assert s[..|pat|] == a[..|pat|];
      assert !OccursAt(a, pat, 0);
    } else {
      assert pat[1..][|a| - 1] == pat[|a|] != pat[0];
      assert s[..|pat|][|a|] == u[0] == pat[0];
    }
  }

  /** Every occurrence of the pattern is replaced: text made of pieces that
      hold no occurrence, joined by `pat`, becomes the same pieces joined by
      `rep`. The pattern's first character must not recur in it (as the `<`
      of a mention token does not), so that no occurrence straddles a piece
      and the token after it. */
  lemma {:induction false} ReplaceAllEvery(pieces: seq<string>, pat: string, rep: string)
    requires pat != [] && pat[0] !in pat[1..]
    requires forall k :: 0 <= k < |pieces| ==> !Occurs(pieces[k], pat)
    ensures ReplaceAll(JoinWith(pieces, pat), pat, rep) == JoinWith(pieces, rep)
    decreases |pieces|
  {
    if |pieces| == 1 {
      ReplaceAllAbsent(pieces[0], pat, rep);
    } else if |pieces| > 1 {
      var a := pieces[0];
      var t := JoinWith(pieces[1..], pat);
      ReplaceAllEvery(pieces[1..], pat, rep);
      assert JoinWith(pieces, pat) == a + (pat + t);
      ReplaceAllNext(a, t, pat, rep);
      assert JoinWith(pieces, rep) == a + (rep + JoinWith(pieces[1..], rep));
    }
  }

  predicate IsDigit(c: char) {
    '0' <= c <= '9'
  }

  predicate AllDigits(s: string) {
    forall i :: 0 <= i < |s| ==> IsDigit(s[i])
  }

  function DigitChar(d: nat): (c: char)
    requires d < 10
    ensures IsDigit(c) && c as int - '0' as int == d
  {
    (d + '0' as int) as char
  }

  /** `String(n)` for a non-negative integer: its decimal digits, most
      significant first. */
  function Decimal(n: nat): (r: string)
    ensures r != [] && AllDigits(r)
    ensures r[0] == '0' ==> n == 0
    decreases n
  {
    if n < 10 then [DigitChar(n)] else Decimal(n / 10) + [DigitChar(n % 10)]
  }

  /** The number a string of decimal digits denotes. */
  function DecimalValue(s: string): nat
    requires AllDigits(s)
  {
    if s == [] then 0
    else 10 * DecimalValue(s[..|s| - 1]) + (s[|s| - 1] as int - '0' as int)
  }

  /** Reading back the decimal rendering gives the number. */
  lemma {:induction false} DecimalRoundTrip(n: nat)
    ensures DecimalValue(Decimal(n)) == n
    decreases n
  {
    if n >= 10 {
      var r := Decimal(n);
      assert r[..|r| - 1] == Decimal(n / 10);
      DecimalRoundTrip(n / 10);
    }
  }
}
