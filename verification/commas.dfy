/** `numberWithCommas(x)`: `x.toString().replace(/\B(?=(\d{3})+(?!\d))/g, ",")`.

    The replacement is modelled literally, position by position, for any string:
    a comma goes in front of every position that is not a word boundary (`\B`)
    and is followed by one or more groups of three digits that are not followed
    by a further digit. For the digit strings of natural numbers this is then
    shown to coincide with the usual thousands grouping. */
module Commas {
  import opened Text

  /** Membership in the regex class `\w`. */
  predicate IsWordChar(c: char)
  {
    IsDigit(c) || 'a' <= c <= 'z' || 'A' <= c <= 'Z' || c == '_'
  }

  /** `\w` at index p; positions outside the string read as non-word. */
  predicate WordAt(s: string, p: int)
  {
    0 <= p < |s| && IsWordChar(s[p])
  }

  /** `\B` at position p (between s[p-1] and s[p]). */
  predicate NonBoundary(s: string, p: int)
  {
    WordAt(s, p - 1) == WordAt(s, p)
  }

  /** One way for `(\d{3})+(?!\d)` to match at p: k triples of digits, then no digit. */
  predicate TriplesMatch(s: string, p: nat, k: nat)
  {
    && 1 <= k
    && p + 3 * k <= |s|
    && AllDigits(s[p..p + 3 * k])
    && (p + 3 * k == |s| || !IsDigit(s[p + 3 * k]))
  }

  /** The lookahead `(?=(\d{3})+(?!\d))` at p. */
  predicate Lookahead(s: string, p: nat)
  {
    exists k: nat | 1 <= k <= |s| :: TriplesMatch(s, p, k)
  }

  /** The whole pattern matches (with zero width) at p. */
  predicate SeparatorAt(s: string, p: nat)
  {
    NonBoundary(s, p) && Lookahead(s, p)
  }

  /** The global replace, scanning positions i..|s| of the original string. */
  function ReplaceFrom(s: string, i: nat): string
    requires i <= |s|
    decreases |s| - i
  {
    var mark := if SeparatorAt(s, i) then "," else "";
    if i == |s| then mark else mark + [s[i]] + ReplaceFrom(s, i + 1)
  }

  function InsertSeparators(s: string): string
  {
    ReplaceFrom(s, 0)
  }

  /** `numberWithCommas` on an integer argument. */
  function NumberWithCommas(x: int): string
  {
    InsertSeparators(IntToString(x))
  }

  /** Reference: a digit string grouped in threes from the right. */
  function Grouped(d: string): string
    decreases |d|
  {
    if |d| <= 3 then d else Grouped(d[..|d| - 3]) + "," + d[|d| - 3..]
  }

  /** Zero or more `,ddd` groups. */
  predicate CommaTriples(t: string)
    decreases |t|
  {
    t == [] || (|t| >= 4 && t[0] == ',' && AllDigits(t[1..4]) && CommaTriples(t[4..]))
  }

  /** A leading group of one to three digits, then only `,ddd` groups. */
  predicate FirstGroupThenTriples(r: string, f: nat)
  {
    1 <= f <= 3 && f <= |r| && AllDigits(r[..f]) && CommaTriples(r[f..])
  }

  predicate ThousandsShaped(r: string)
  {
    exists f: nat | f <= 3 :: FirstGroupThenTriples(r, f)
  }

  // ---------------------------------------------------------------------------
  // The regex on digit strings

  /** In a string of digits the lookahead holds exactly at the positions a
      positive multiple of three before the end. */
  lemma LookaheadInDigits(d: string, p: nat)
    requires AllDigits(d) && p <= |d|
    ensures Lookahead(d, p) <==> |d| - p >= 3 && (|d| - p) % 3 == 0
  {
    if Lookahead(d, p) {
      var k: nat :| 1 <= k <= |d| && TriplesMatch(d, p, k);
      assert p + 3 * k == |d|;
    }
    if |d| - p >= 3 && (|d| - p) % 3 == 0 {
      var k: nat := (|d| - p) / 3;
      assert d[p..p + 3 * k] == d[p..];
      assert TriplesMatch(d, p, k);
    }
  }

  /** Where the pattern matches inside the digits of a number. */
  lemma SeparatorInDigits(d: string, p: nat)
    requires AllDigits(d) && 1 <= |d| && p <= |d|
    ensures SeparatorAt(d, p) <==> 0 < p < |d| && (|d| - p) % 3 == 0
  {
    LookaheadInDigits(d, p);
  }

  /** What the scan puts before index i of an n-digit string: a comma at every
      inner position a multiple of three before the end. */
  function DigitMark(n: int, i: nat): string
  {
    if 0 < i && (n - i) % 3 == 0 then "," else ""
  }

  /** One step of the scan over a digit string, with the match condition made arithmetic. */
  lemma ReplaceStepInDigits(d: string, i: nat)
    requires AllDigits(d) && 1 <= |d| && i < |d|
    ensures ReplaceFrom(d, i) == DigitMark(|d|, i) + [d[i]] + ReplaceFrom(d, i + 1)
  {
    SeparatorInDigits(d, i);
  }

  lemma ReplaceAtEnd(d: string)
    requires AllDigits(d) && 1 <= |d|
    ensures ReplaceFrom(d, |d|) == ""
  {
    SeparatorInDigits(d, |d|);
  }

  /** The scan over the last three digits of a longer digit string. */
  lemma ReplaceLastTriple(d: string)
    requires AllDigits(d) && |d| > 3
    ensures ReplaceFrom(d, |d| - 3) == "," + d[|d| - 3..]
  {
    var n := |d|;
    ReplaceAtEnd(d);
    ReplaceStepInDigits(d, n - 1);
    assert ReplaceFrom(d, n - 1) == [d[n - 1]] by {
      assert DigitMark(n, n - 1) == "";
    }
    ReplaceStepInDigits(d, n - 2);
    assert ReplaceFrom(d, n - 2) == [d[n - 2], d[n - 1]] by {
      assert DigitMark(n, n - 2) == "";
    }
    ReplaceStepInDigits(d, n - 3);
    assert DigitMark(n, n - 3) == ",";
    assert d[n - 3..] == [d[n - 3], d[n - 2], d[n - 1]];
  }

  /** Cutting the last three digits off: the scan over d is the scan over the
      shorter prefix followed by a comma and the final triple. */
  lemma {:induction false} ReplaceDropsLastTriple(d: string, i: nat)
    requires AllDigits(d) && |d| > 3 && i <= |d| - 3
    ensures ReplaceFrom(d, i) == ReplaceFrom(d[..|d| - 3], i) + "," + d[|d| - 3..]
    decreases |d| - i
  {
    var e := d[..|d| - 3];
    var t := d[|d| - 3..];
    if i == |d| - 3 {
      DigitsSlice(d, 0, |d| - 3);
      ReplaceLastTriple(d);
      ReplaceAtEnd(e);
    } else {
      var mark := ReplaceStepPair(d, i);
      ReplaceDropsLastTriple(d, i + 1);
      Regroup(mark + [d[i]], ReplaceFrom(e, i + 1), t);
    }
  }

  lemma Regroup(a: string, b: string, t: string)
    ensures a + (b + "," + t) == (a + b) + "," + t
  {
  }

  /** Before the last triple, the scans over d and over d without its last
      triple take the same step: the same mark and the same digit. */
  lemma ReplaceStepPair(d: string, i: nat) returns (mark: string)
    requires AllDigits(d) && |d| > 3 && i < |d| - 3
    ensures ReplaceFrom(d, i) == mark + [d[i]] + ReplaceFrom(d, i + 1)
    ensures ReplaceFrom(d[..|d| - 3], i) == mark + [d[i]] + ReplaceFrom(d[..|d| - 3], i + 1)
  {
    var e := d[..|d| - 3];
    DigitsSlice(d, 0, |d| - 3);
    mark := DigitMark(|d|, i);
    ReplaceStepInDigits(d, i);
    ReplaceStepInDigits(e, i);
    assert e[i] == d[i];
    MarkThreeFewer(|d|, i);
  }

  /** Three digits fewer at the end leave every earlier mark as it was. */
  lemma MarkThreeFewer(n: int, i: nat)
    ensures DigitMark(n - 3, i) == DigitMark(n, i)
  {
    assert (n - 3 - i) % 3 == (n - i) % 3 by {
      assert n - 3 - i == (n - i) - 3;
    }
  }

  /** Any slice of a digit string is a digit string. */
  lemma DigitsSlice(d: string, i: nat, j: nat)
    requires AllDigits(d) && i <= j <= |d|
    ensures AllDigits(d[i..j])
  {
    forall k | 0 <= k < j - i ensures IsDigit(d[i..j][k]) {
      assert d[i..j][k] == d[i + k];
    }
  }

  /** A digit string has no comma to remove. */
  lemma DigitsKeepAll(t: string)
    requires AllDigits(t)
    ensures Without(t, ',') == t
  {
    assert ',' !in t by {
      forall j | 0 <= j < |t| ensures t[j] != ',' {
        assert IsDigit(t[j]);
      }
    }
    WithoutAbsent(t, ',');
  }

  /** On digit strings the literal regex replacement is the thousands grouping. */
  lemma {:induction false} InsertSeparatorsGroups(d: string)
    requires AllDigits(d) && 1 <= |d|
    ensures InsertSeparators(d) == Grouped(d)
    decreases |d|
  {
    if |d| <= 3 {
      NoSeparatorInShort(d, 0);
    } else {
      ReplaceDropsLastTriple(d, 0);
      InsertSeparatorsGroups(d[..|d| - 3]);
    }
  }

  lemma {:induction false} NoSeparatorInShort(d: string, i: nat)
    requires AllDigits(d) && 1 <= |d| <= 3 && i <= |d|
    ensures ReplaceFrom(d, i) == d[i..]
    decreases |d| - i
  {
    if i < |d| {
      ReplaceStepInDigits(d, i);
      NoSeparatorInShort(d, i + 1);
    } else {
      ReplaceAtEnd(d);
    }
  }

  // ---------------------------------------------------------------------------
  // Properties of the grouping

  lemma {:induction false} GroupedStrips(d: string)
    requires AllDigits(d)
    ensures Without(Grouped(d), ',') == d
    decreases |d|
  {
    if |d| <= 3 {
      DigitsKeepAll(d);
    } else {
      var e := d[..|d| - 3];
      var t := d[|d| - 3..];
      DigitsSlice(d, 0, |d| - 3);
      DigitsSlice(d, |d| - 3, |d|);
      GroupedStrips(e);
      StripJoinedGroup(Grouped(e), t);
      assert e + t == d;
    }
  }

  /** Removing commas from `g,t`, where t is all digits, keeps t whole. */
  lemma StripJoinedGroup(g: string, t: string)
    requires AllDigits(t)
    ensures Without(g + "," + t, ',') == Without(g, ',') + t
  {
    var gc := g + ",";
    WithoutAppend(gc, t, ',');
    WithoutAppend(g, ",", ',');
    CommaVanishes();
    DigitsKeepAll(t);
  }

  lemma CommaVanishes()
    ensures Without(",", ',') == ""
  {
    assert ","[1..] == "";
  }

  lemma {:induction false} CommaTriplesExtend(t: string, g: string)
    requires CommaTriples(t) && |g| == 3 && AllDigits(g)
    ensures CommaTriples(t + "," + g)
    decreases |t|
  {
    if t == [] {
      assert t + "," + g == [','] + g;
      assert ([','] + g)[4..] == [];
    } else {
      CommaTriplesExtend(t[4..], g);
      assert (t + "," + g)[4..] == t[4..] + "," + g;
      assert (t + "," + g)[1..4] == t[1..4];
    }
  }

  lemma {:induction false} GroupedShape(d: string)
    requires AllDigits(d) && 1 <= |d|
    ensures FirstGroupThenTriples(Grouped(d), (|d| - 1) % 3 + 1)
    decreases |d|
  {
    if |d| <= 3 {
      assert Grouped(d)[(|d| - 1) % 3 + 1..] == [];
    } else {
      var e := d[..|d| - 3];
      var t := d[|d| - 3..];
      DigitsSlice(d, 0, |d| - 3);
      DigitsSlice(d, |d| - 3, |d|);
      GroupedShape(e);
      assert (|e| - 1) % 3 + 1 == (|d| - 1) % 3 + 1 by {
        assert |e| - 1 == (|d| - 1) - 3;
      }
      ShapeExtend(Grouped(e), (|d| - 1) % 3 + 1, t);
    }
  }

  /** Appending `,ttt` keeps the shape and the first group. */
  lemma ShapeExtend(r: string, f: nat, t: string)
    requires FirstGroupThenTriples(r, f) && |t| == 3 && AllDigits(t)
    ensures FirstGroupThenTriples(r + "," + t, f)
  {
    CommaTriplesExtend(r[f..], t);
    assert (r + "," + t)[f..] == r[f..] + "," + t;
    assert (r + "," + t)[..f] == r[..f];
  }

  // ---------------------------------------------------------------------------
  // What `numberWithCommas` promises for natural numbers

  /** The formatted natural number is its digits grouped in threes from the right. */
  lemma CommasGroupDigits(n: nat)
    ensures NumberWithCommas(n) == Grouped(Decimal(n))
  {
    InsertSeparatorsGroups(Decimal(n));
  }

  /** Removing the commas gives back the plain decimal digits. */
  lemma CommasStripToDecimal(n: nat)
    ensures Without(NumberWithCommas(n), ',') == Decimal(n)
  {
    CommasGroupDigits(n);
    GroupedStrips(Decimal(n));
  }

  /** The first group holds one to three digits and every later group exactly three. */
  lemma CommasShape(n: nat)
    ensures ThousandsShaped(NumberWithCommas(n))
    ensures Occurrences(NumberWithCommas(n), ',') == (|Decimal(n)| - 1) / 3
  {
    var d := Decimal(n);
    CommasGroupDigits(n);
    GroupedShape(d);
    assert FirstGroupThenTriples(Grouped(d), (|d| - 1) % 3 + 1);
    CommasStripToDecimal(n);
    GroupedLength(d);
  }

  lemma {:induction false} GroupedLength(d: string)
    requires AllDigits(d) && 1 <= |d|
    ensures |Grouped(d)| == |d| + (|d| - 1) / 3
    decreases |d|
  {
    if |d| > 3 {
      GroupedLength(d[..|d| - 3]);
    }
  }

  /** Below one thousand there is nothing to separate. */
  lemma SmallNumbersPlain(n: nat)
    requires n < 1000
    ensures NumberWithCommas(n) == Decimal(n)
    ensures ',' !in NumberWithCommas(n)
  {
    DecimalLengthBound(n, 3);
    assert Pow10(3) == 1000;
    CommasGroupDigits(n);
  }

  /** From four digits on there is at least one comma. */
  lemma LargeNumbersSeparated(n: nat)
    requires n >= 1000
    ensures ',' in NumberWithCommas(n)
  {
    DecimalLengthBound(n, 3);
    assert Pow10(3) == 1000;
    CommasShape(n);
    if ',' !in NumberWithCommas(n) {
      OccurrencesAbsent(NumberWithCommas(n), ',');
      assert false;
    }
  }

  lemma ThousandsExample()
    ensures NumberWithCommas(883496) == "883,496"
  {
    DecimalExample();
    CommasGroupDigits(883496);
    GroupedExample();
  }

  lemma GroupedExample()
    ensures Grouped("883496") == "883,496"
  {
    var d := "883496";
    assert d[..|d| - 3] == "883" && d[|d| - 3..] == "496";
    assert Grouped(d) == Grouped("883") + "," + "496";
  }

  lemma DecimalExample()
    ensures Decimal(883496) == "883496"
  {
    assert Decimal(8) == "8";
    assert Decimal(88) == "88";
    assert Decimal(883) == "883";
    assert Decimal(8834) == "8834";
    assert Decimal(88349) == "88349";
  }
}
