/**
 * String helpers the client relies on: splitting a string at a separator the
 * way repeated `std::getline` does, the lexicographic order of `std::string`,
 * and decimal conversion as done by `std::to_string` and `std::stoi`.
 *
 * A `char` stands for one byte of a `std::string`; comparing two chars by
 * code point is the unsigned byte comparison `std::string` uses.
 */
module Text {

  // ---------------------------------------------------------------------------
  // Splitting at a separator
  // ---------------------------------------------------------------------------

  /** The fields of `s` between occurrences of `sep`: k separators give k + 1 fields. */
  function Fields(s: string, sep: char): (r: seq<string>)
    ensures |r| > 0
    decreases |s|
  {
    if |s| == 0 then [""] else Push(Fields(s[..|s| - 1], sep), s[|s| - 1], sep)
  }

  /** Reading one more character: a separator opens a new field, anything else extends the last one. */
  function Push(f: seq<string>, c: char, sep: char): (r: seq<string>)
    requires |f| > 0
    ensures |r| > 0
  {
    if c == sep then f + [""] else f[..|f| - 1] + [f[|f| - 1] + [c]]
  }

  /**
   * The segments that repeated `std::getline(stream, segment, sep)` yields:
   * every field, except that an empty last field is not produced (so "" gives
   * nothing and "a/" gives just "a").
   */
  function GetlineFields(s: string, sep: char): seq<string>
  {
    var f := Fields(s, sep);
    if f[|f| - 1] == "" then f[..|f| - 1] else f
  }

  /** The loop `while (getline(s, segment, sep)) { ... }` collecting its segments. */
  method SplitFields(s: string, sep: char) returns (segments: seq<string>)
    ensures segments == GetlineFields(s, sep)
  {
    segments := [];
    var segment := "";
    var i := 0;
    while i < |s|
      invariant 0 <= i <= |s|
      invariant segments + [segment] == Fields(s[..i], sep)
    {
      assert s[..i + 1][..i] == s[..i];
      if s[i] == sep {
        segments := segments + [segment];
        segment := "";
      } else {
        segment := segment + [s[i]];
      }
      i := i + 1;
    }
    assert s[..|s|] == s;
    if segment != "" {
      segments := segments + [segment];
    } else {
      assert (segments + [segment])[..|segments|] == segments;
    }
  }

  /** The fields that are not empty, in order. */
  function NonEmpty(fields: seq<string>): (r: seq<string>)
    ensures forall i :: 0 <= i < |r| ==> r[i] != ""
    decreases |fields|
  {
    if fields == [] then []
    else
      NonEmpty(fields[..|fields| - 1])
      + (if fields[|fields| - 1] == "" then [] else [fields[|fields| - 1]])
  }

  /** The non-empty fields of `s`: what a getline loop that skips empty segments sees. */
  function Tokens(s: string, sep: char): seq<string>
  {
    NonEmpty(Fields(s, sep))
  }

  lemma {:induction false} NonEmptyConcat(a: seq<string>, b: seq<string>)
    ensures NonEmpty(a + b) == NonEmpty(a) + NonEmpty(b)
    decreases |b|
  {
    if b == [] {
      assert a + b == a;
    } else {
      var b' := b[..|b| - 1];
      assert (a + b)[..|a + b| - 1] == a + b';
      NonEmptyConcat(a, b');
    }
  }

  /** Dropping an empty last field changes nothing for a loop that skips empty segments. */
  lemma GetlineTokens(s: string, sep: char)
    ensures NonEmpty(GetlineFields(s, sep)) == Tokens(s, sep)
  {
    var f := Fields(s, sep);
    if f[|f| - 1] == "" {
      assert f == f[..|f| - 1] + [""];
      NonEmptyConcat(f[..|f| - 1], [""]);
      assert NonEmpty([""]) == NonEmpty([]) + [];
    }
  }

  /** Every character of `field` occurs in `s` and is not the separator. */
  predicate PieceOf(field: string, s: string, sep: char)
  {
    forall c :: c in field ==> c != sep && c in s
  }

  /** Every field is a separator-free piece of the input. */
  lemma {:induction false} FieldChars(s: string, sep: char)
    ensures forall i :: 0 <= i < |Fields(s, sep)| ==> PieceOf(Fields(s, sep)[i], s, sep)
    decreases |s|
  {
    if |s| > 0 {
      var s', last := s[..|s| - 1], s[|s| - 1];
      FieldChars(s', sep);
      assert s == s' + [last];
      var f := Fields(s', sep);
      assert forall x :: x in s' ==> x in s;
      forall i | 0 <= i < |Fields(s, sep)|
        ensures PieceOf(Fields(s, sep)[i], s, sep)
      {
        assert PieceOf(f[if i < |f| then i else |f| - 1], s', sep);
      }
    }
  }

  /** A string without the separator is a single field. */
  lemma {:induction false} FieldsOfSeparatorFree(s: string, sep: char)
    requires sep !in s
    ensures Fields(s, sep) == [s]
    decreases |s|
  {
    if |s| > 0 {
      var s' := s[..|s| - 1];
      assert sep !in s' by { assert forall c :: c in s' ==> c in s; }
      FieldsOfSeparatorFree(s', sep);
      assert s' + [s[|s| - 1]] == s;
    }
  }

  /** Pushing onto a concatenation only touches its non-empty second part. */
  lemma PushConcat(x: seq<string>, y: seq<string>, c: char, sep: char)
    requires |y| > 0
    ensures Push(x + y, c, sep) == x + Push(y, c, sep)
  {
    if c != sep {
      assert (x + y)[..|x + y| - 1] == x + y[..|y| - 1];
    }
  }

  /** Joining two strings with one separator concatenates their fields. */
  lemma {:induction false} FieldsConcat(a: string, b: string, sep: char)
    ensures Fields(a + [sep] + b, sep) == Fields(a, sep) + Fields(b, sep)
    decreases |b|
  {
    var s := a + [sep] + b;
    if b == [] {
      assert s[..|s| - 1] == a;
    } else {
      var b' := b[..|b| - 1];
      assert s[..|s| - 1] == a + [sep] + b';
      assert s[|s| - 1] == b[|b| - 1];
      FieldsConcat(a, b', sep);
      PushConcat(Fields(a, sep), Fields(b', sep), b[|b| - 1], sep);
    }
  }

  /** Two separators in a row only add an empty field, which token readers skip. */
  lemma RepeatedSeparator(a: string, b: string, sep: char)
    ensures Tokens(a + [sep] + [sep] + b, sep) == Tokens(a + [sep] + b, sep)
  {
    FieldsConcat(a + [sep], b, sep);
    FieldsConcat(a, [], sep);
    FieldsConcat(a, b, sep);
    assert a + [sep] + [] == a + [sep];
    NonEmptyConcat(Fields(a, sep) + Fields([], sep), Fields(b, sep));
    NonEmptyConcat(Fields(a, sep), Fields([], sep));
    NonEmptyConcat(Fields(a, sep), Fields(b, sep));
    assert a + [sep] + [sep] + b == (a + [sep]) + [sep] + b;
  }

  // ---------------------------------------------------------------------------
  // Lexicographic order (std::string operator<)
  // ---------------------------------------------------------------------------

  /** `a < b` on `std::string`: the first differing byte decides; a proper prefix is smaller. */
  predicate Less(a: string, b: string)
    decreases |a|
  {
    |b| > 0 && (|a| == 0 || a[0] < b[0] || (a[0] == b[0] && Less(a[1..], b[1..])))
  }

  lemma {:induction false} LessIrreflexive(a: string)
    ensures !Less(a, a)
    decreases |a|
  {
    if |a| > 0 {
      LessIrreflexive(a[1..]);
    }
  }

  lemma {:induction false} LessTransitive(a: string, b: string, c: string)
    requires Less(a, b) && Less(b, c)
    ensures Less(a, c)
    decreases |a|
  {
    if |a| > 0 && a[0] == b[0] && b[0] == c[0] {
      LessTransitive(a[1..], b[1..], c[1..]);
    }
  }

  lemma {:induction false} LessTotal(a: string, b: string)
    ensures a == b || Less(a, b) || Less(b, a)
    decreases |a|
  {
    if |a| > 0 && |b| > 0 && a[0] == b[0] {
      LessTotal(a[1..], b[1..]);
      if a[1..] == b[1..] {
        assert a == [a[0]] + a[1..] && b == [b[0]] + b[1..];
      }
    }
  }

  lemma LessAsymmetric(a: string, b: string)
    requires Less(a, b)
    ensures !Less(b, a)
  {
    if Less(b, a) {
      LessTransitive(a, b, a);
      LessIrreflexive(a);
    }
  }

  // ---------------------------------------------------------------------------
  // Decimal numbers (std::to_string, std::stoi on a string of digits)
  // ---------------------------------------------------------------------------

  predicate IsDigit(c: char)
  {
    '0' <= c <= '9'
  }

  predicate AllDigits(s: string)
  {
    forall i :: 0 <= i < |s| ==> IsDigit(s[i])
  }

  function DigitChar(d: nat): (c: char)
    requires d < 10
    ensures IsDigit(c)
  {
    (('0' as int) + d) as char
  }

  /** `std::to_string` of a non-negative number. */
  function NatToString(n: nat): (r: string)
    ensures |r| > 0
    decreases n
  {
    if n < 10 then [DigitChar(n)] else NatToString(n / 10) + [DigitChar(n % 10)]
  }

  /** `NatToString` writes only digits. */
  lemma {:induction false} NatToStringDigits(n: nat)
    ensures AllDigits(NatToString(n))
    decreases n
  {
    if n >= 10 {
      NatToStringDigits(n / 10);
    }
  }

  /** `std::to_string` of an `int`. */
  function IntToString(i: int): string
  {
    if i < 0 then "-" + NatToString(-i) else NatToString(i)
  }

  /** The value of a string of decimal digits (leading zeros allowed). */
  function DigitsValue(s: string): nat
    requires AllDigits(s)
    decreases |s|
  {
    if s == [] then 0
    else DigitsValue(s[..|s| - 1]) * 10 + ((s[|s| - 1] as int) - ('0' as int))
  }

  /** Reading back what `NatToString` wrote gives the number. */
  lemma {:induction false} NatToStringRoundTrip(n: nat)
    ensures AllDigits(NatToString(n))
    ensures DigitsValue(NatToString(n)) == n
    decreases n
  {
    NatToStringDigits(n);
    var s := NatToString(n);
    if n >= 10 {
      NatToStringRoundTrip(n / 10);
      assert s[..|s| - 1] == NatToString(n / 10);
    } else {
      assert s[..|s| - 1] == [];
    }
  }

  // ---------------------------------------------------------------------------
  // Searching and sentences
  // ---------------------------------------------------------------------------

  /** `std::string::find` of one character: the first position holding `c`, or `|s|` (`npos`) when there is none. */
  function IndexOf(s: string, c: char): (r: nat)
    ensures r <= |s|
    ensures r < |s| ==> s[r] == c
    ensures forall k :: 0 <= k < r ==> s[k] != c
    decreases |s|
  {
    if s == [] then 0
    else if s[0] == c then 0
    else 1 + IndexOf(s[1..], c)
  }

  /** `toupper` in the C locale. */
  function ToUpper(c: char): char
  {
    if 'a' <= c <= 'z' then (c as int - 32) as char else c
  }

  /** `prettifySentence` (main.cpp): capitalise the first character and end with a full stop. */
  function Pretty(s: string): (r: string)
    ensures |s| <= |r| <= |s| + 1
    ensures s == "" <==> r == ""
    ensures r != "" ==> r[0] == ToUpper(s[0]) && r[1..|s|] == s[1..] && r[|r| - 1] == '.'
    ensures s != "" ==> (|r| == |s| <==> s[|s| - 1] == '.')
  {
    if s == [] then s
    else
      var t := [ToUpper(s[0])] + s[1..];
      if t[|t| - 1] != '.' then t + "." else t
  }

  /** Prettifying a prettified sentence changes nothing. */
  lemma PrettyIdempotent(s: string)
    ensures Pretty(Pretty(s)) == Pretty(s)
  {
    var r := Pretty(s);
    if r != "" {
      assert [ToUpper(r[0])] + r[1..] == r;
    }
  }
}
