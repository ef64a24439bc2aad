/**
  * The pure formatters of the renderer: cooking times, quantities, timers, and the
  * escaping of LaTeX's reserved characters in free text.
  */
module Format {
  import opened Wrappers
  import opened Strings
  import opened Cooklang

  // ---------------------------------------------------------------------------
  // Decimal numerals

  predicate IsDigit(c: char) {
    '0' <= c <= '9'
  }

  predicate AllDigits(s: string) {
    forall i :: 0 <= i < |s| ==> IsDigit(s[i])
  }

  function DigitChar(d: nat): (c: char)
    requires d < 10
    ensures IsDigit(c)
  {
    (('0' as int) + d) as char
  }

  /** The decimal numeral of `n`, as Rust's `Display` writes an unsigned integer. */
  function NatToString(n: nat): (s: string)
    ensures |s| > 0 && AllDigits(s)
    decreases n
  {
    if n < 10 then [DigitChar(n)] else NatToString(n / 10) + [DigitChar(n % 10)]
  }

  /** The number a string of digits denotes. */
  function DigitsValue(s: string): nat
    requires AllDigits(s)
    decreases |s|
  {
    if s == [] then 0
    else DigitsValue(s[..|s| - 1]) * 10 + ((s[|s| - 1] as int) - ('0' as int))
  }

  /** The number of digits at the start of `s`. */
  function LeadingDigits(s: string): (k: nat)
    ensures k <= |s| && AllDigits(s[..k])
    ensures k < |s| ==> !IsDigit(s[k])
  {
    if s == [] || !IsDigit(s[0]) then 0
    else
      var k := 1 + LeadingDigits(s[1..]);
      assert s[..k] == [s[0]] + s[1..][..k - 1];
      k
  }

  lemma {:induction false} DigitsValueOfNatToString(n: nat)
    ensures DigitsValue(NatToString(n)) == n
    decreases n
  {
    if n >= 10 {
      var s := NatToString(n);
      assert s[..|s| - 1] == NatToString(n / 10);
      DigitsValueOfNatToString(n / 10);
    }
  }

  /** A numeral followed by a non-digit is read up to its last digit. */
  lemma LeadingDigitsOf(d: string, t: string)
    requires AllDigits(d)
    requires t == [] || !IsDigit(t[0])
    ensures LeadingDigits(d + t) == |d|
    decreases |d|
  {
    if d != [] {
      assert (d + t)[1..] == d[1..] + t;
      LeadingDigitsOf(d[1..], t);
    } else {
      assert d + t == t;
    }
  }

  // ---------------------------------------------------------------------------
  // Times

  /** `RecipeTime::format_time`: minutes as "N mins", "H hrs" or "H hrs M mins". */
  function FormatTime(minutes: nat): string {
    if minutes < 60 then NatToString(minutes) + " mins"
    else
      var hours := minutes / 60;
      var mins := minutes % 60;
      if mins == 0 then NatToString(hours) + " hrs"
      else NatToString(hours) + " hrs " + NatToString(mins) + " mins"
  }

  /** Reads a duration in any of the three forms `FormatTime` writes. */
  function ParseTime(s: string): Option<nat> {
    var h := LeadingDigits(s);
    if h == 0 then None else ParseUnits(DigitsValue(s[..h]), s[h..])
  }

  /** The rest of a duration after its first number `n`. */
  function ParseUnits(n: nat, rest: string): Option<nat> {
    if rest == " mins" then Some(n)
    else if rest == " hrs" then Some(60 * n)
    else if |rest| > 5 && rest[..5] == " hrs " then ParseMinutes(n, rest[5..])
    else None
  }

  /** The minutes after `n` hours. */
  function ParseMinutes(hours: nat, t: string): Option<nat> {
    var m := LeadingDigits(t);
    if m > 0 && t[m..] == " mins" then Some(60 * hours + DigitsValue(t[..m])) else None
  }

  /** Reading back a numeral followed by a word that starts with a space. */
  lemma NumeralThen(n: nat, t: string)
    requires |t| > 0 && t[0] == ' '
    ensures var s := NatToString(n) + t;
      LeadingDigits(s) == |NatToString(n)| && s[..|NatToString(n)|] == NatToString(n)
      && s[|NatToString(n)|..] == t && DigitsValue(NatToString(n)) == n
  {
    LeadingDigitsOf(NatToString(n), t);
    DigitsValueOfNatToString(n);
    var s := NatToString(n) + t;
    assert s[..|NatToString(n)|] == NatToString(n);
  }

  lemma ParseNumeralThen(n: nat, t: string)
    requires |t| > 0 && t[0] == ' '
    ensures ParseTime(NatToString(n) + t) == ParseUnits(n, t)
  {
    NumeralThen(n, t);
  }

  lemma ParseMinutesOnly(minutes: nat)
    requires minutes < 60
    ensures ParseTime(FormatTime(minutes)) == Some(minutes)
  {
    ParseNumeralThen(minutes, " mins");
  }

  lemma ParseWholeHours(minutes: nat)
    requires minutes >= 60 && minutes % 60 == 0
    ensures ParseTime(FormatTime(minutes)) == Some(minutes)
  {
    var hours := minutes / 60;
    ParseNumeralThen(hours, " hrs");
    assert " hrs" != " mins";
  }

  lemma ParseMinutesAfter(hours: nat, mins: nat)
    ensures ParseMinutes(hours, NatToString(mins) + " mins") == Some(60 * hours + mins)
  {
    NumeralThen(mins, " mins");
  }

  lemma ParseHoursTail(hours: nat, mins: nat)
    ensures ParseUnits(hours, " hrs " + NatToString(mins) + " mins") == ParseMinutes(hours, NatToString(mins) + " mins")
  {
    var tail := " hrs " + NatToString(mins) + " mins";
    assert tail[..5] == " hrs " && tail[5..] == NatToString(mins) + " mins";
    assert |tail| > 5 && tail[4] == ' ';
    assert tail != " mins" && tail != " hrs";
  }

  lemma ParseHoursAndMinutes(minutes: nat)
    requires minutes >= 60 && minutes % 60 != 0
    ensures ParseTime(FormatTime(minutes)) == Some(minutes)
  {
    var hours, mins := minutes / 60, minutes % 60;
    var tail := " hrs " + NatToString(mins) + " mins";
    assert FormatTime(minutes) == NatToString(hours) + " hrs " + NatToString(mins) + " mins";
    assert NatToString(hours) + " hrs " + NatToString(mins) + " mins" == NatToString(hours) + tail;
    ParseNumeralThen(hours, tail);
    ParseHoursTail(hours, mins);
    ParseMinutesAfter(hours, mins);
  }

  /** Every formatted time reads back as the minutes it was made from. */
  lemma ParseFormatTime(minutes: nat)
    ensures ParseTime(FormatTime(minutes)) == Some(minutes)
  {
    if minutes < 60 {
      ParseMinutesOnly(minutes);
    } else if minutes % 60 == 0 {
      ParseWholeHours(minutes);
    } else {
      ParseHoursAndMinutes(minutes);
    }
  }

  /** Different durations are never written the same. */
  lemma FormatTimeInjective(a: nat, b: nat)
    requires FormatTime(a) == FormatTime(b)
    ensures a == b
  {
    ParseFormatTime(a);
    ParseFormatTime(b);
  }

  lemma Numerals()
    ensures NatToString(0) == "0" && NatToString(1) == "1" && NatToString(2) == "2"
    ensures NatToString(59) == "59" && NatToString(30) == "30" && NatToString(5) == "5"
  {
    assert DigitChar(0) == '0' && DigitChar(1) == '1' && DigitChar(2) == '2';
    assert DigitChar(3) == '3' && DigitChar(5) == '5' && DigitChar(9) == '9';
    assert NatToString(59) == NatToString(5) + [DigitChar(9)];
    assert NatToString(30) == NatToString(3) + [DigitChar(0)];
  }

  /** Worked examples under an hour: 0 and 59 minutes. */
  lemma FormatMinutesExamples()
    ensures FormatTime(0) == "0 mins"
    ensures FormatTime(59) == "59 mins"
  {
    Numerals();
  }

  /** Worked example of whole hours: 60 minutes. */
  lemma FormatWholeHourExample()
    ensures FormatTime(60) == "1 hrs"
  {
    Numerals();
    assert 60 / 60 == 1 && 60 % 60 == 0;
  }

  /** Worked example of hours and minutes: 90 minutes. */
  lemma FormatNinetyExample()
    ensures FormatTime(90) == "1 hrs 30 mins"
  {
    Numerals();
    assert 90 / 60 == 1 && 90 % 60 == 30;
    assert FormatTime(90) == "1" + " hrs " + "30" + " mins";
  }

  /** Worked example of hours and minutes: 125 minutes. */
  lemma FormatTwoHoursExample()
    ensures FormatTime(125) == "2 hrs 5 mins"
  {
    Numerals();
    assert 125 / 60 == 2 && 125 % 60 == 5;
    assert FormatTime(125) == "2" + " hrs " + "5" + " mins";
  }

  // ---------------------------------------------------------------------------
  // Escaping

  /** The four characters `sanitize_latex` escapes. */
  predicate Reserved(c: char) {
    c == '&' || c == '%' || c == '$' || c == '#'
  }

  /** `str::replace` of a character by a string: every occurrence, left to right. */
  function ReplaceChar(s: string, c: char, rep: string): string {
    if s == [] then [] else (if s[0] == c then rep else [s[0]]) + ReplaceChar(s[1..], c, rep)
  }

  /** `sanitize_latex`: four successive replacements, one per reserved character. */
  function SanitizeLatex(input: string): string {
    ReplaceChar(ReplaceChar(ReplaceChar(ReplaceChar(input, '&', "\\&"), '%', "\\%"), '$', "\\$"), '#', "\\#")
  }

  /** The reference escape: one pass, a backslash before each reserved character. */
  function Escape(s: string): string {
    if s == [] then [] else (if Reserved(s[0]) then ['\\', s[0]] else [s[0]]) + Escape(s[1..])
  }

  /** Removes the backslash in front of each reserved character. */
  function Unescape(s: string): string
    decreases |s|
  {
    if s == [] then []
    else if |s| >= 2 && s[0] == '\\' && Reserved(s[1]) then [s[1]] + Unescape(s[2..])
    else [s[0]] + Unescape(s[1..])
  }

  function CountReserved(s: string): nat {
    if s == [] then 0 else (if Reserved(s[0]) then 1 else 0) + CountReserved(s[1..])
  }

  lemma {:induction false} ReplaceCharAppend(a: string, b: string, c: char, rep: string)
    ensures ReplaceChar(a + b, c, rep) == ReplaceChar(a, c, rep) + ReplaceChar(b, c, rep)
    decreases |a|
  {
    if a == [] {
      assert a + b == b;
    } else {
      assert (a + b)[1..] == a[1..] + b;
      ReplaceCharAppend(a[1..], b, c, rep);
    }
  }

  /** The four replacements applied to a single character. */
  lemma SanitizeChar(x: char)
    ensures SanitizeLatex([x]) == if Reserved(x) then ['\\', x] else [x]
  {
    var bs := "\\";
    assert ReplaceChar(bs, '%', "\\%") == bs && ReplaceChar(bs, '$', "\\$") == bs
      && ReplaceChar(bs, '#', "\\#") == bs;
    forall c, rep | c != x ensures ReplaceChar([x], c, rep) == [x] {}
    forall c, rep | c == x ensures ReplaceChar([x], c, rep) == rep {}
    if x == '&' {
      ReplaceCharAppend(bs, [x], '%', "\\%");
      ReplaceCharAppend(bs, [x], '$', "\\$");
      ReplaceCharAppend(bs, [x], '#', "\\#");
    } else if x == '%' {
      ReplaceCharAppend(bs, [x], '$', "\\$");
      ReplaceCharAppend(bs, [x], '#', "\\#");
    } else if x == '$' {
      ReplaceCharAppend(bs, [x], '#', "\\#");
    }
  }

  /**
    * The chained replacements equal the one-pass escape: the backslashes the earlier
    * replacements insert are never touched by the later ones.
    */
  lemma {:induction false} SanitizeIsEscape(s: string)
    ensures SanitizeLatex(s) == Escape(s)
    decreases |s|
  {
    if s != [] {
      var x, rest := s[0], s[1..];
      assert s == [x] + rest;
      ReplaceCharAppend([x], rest, '&', "\\&");
      var a := ReplaceChar([x], '&', "\\&");
      var a' := ReplaceChar(rest, '&', "\\&");
      ReplaceCharAppend(a, a', '%', "\\%");
      var b := ReplaceChar(a, '%', "\\%");
      var b' := ReplaceChar(a', '%', "\\%");
      ReplaceCharAppend(b, b', '$', "\\$");
      var c := ReplaceChar(b, '$', "\\$");
      var c' := ReplaceChar(b', '$', "\\$");
      ReplaceCharAppend(c, c', '#', "\\#");
      assert SanitizeLatex(s) == SanitizeLatex([x]) + SanitizeLatex(rest);
      SanitizeChar(x);
      SanitizeIsEscape(rest);
    }
  }

  /** The output is the input plus one backslash per reserved character. */
  lemma {:induction false} EscapeLength(s: string)
    ensures |Escape(s)| == |s| + CountReserved(s)
    decreases |s|
  {
    if s != [] {
      EscapeLength(s[1..]);
    }
  }

  /** Removing the inserted backslashes gives the input back, so escaping loses nothing. */
  lemma {:induction false} UnescapeEscape(s: string)
    ensures Unescape(Escape(s)) == s
    decreases |s|
  {
    if s != [] {
      var x, rest := s[0], s[1..];
      var e := Escape(rest);
      UnescapeEscape(rest);
      if Reserved(x) {
        var t := ['\\', x] + e;
        assert t[2..] == e;
      } else {
        var t := [x] + e;
        assert t[1..] == e;
        if x == '\\' && |t| >= 2 {
          EscapeHead(rest);
        }
      }
      assert s == [x] + rest;
    }
  }

  /** An escaped string never starts with a bare reserved character. */
  lemma EscapeHead(s: string)
    requires s != []
    ensures !Reserved(Escape(s)[0])
  {
  }

  /** Escaping works piece by piece: the escape of a concatenation is the concatenation of escapes. */
  lemma {:induction false} EscapeAppend(a: string, b: string)
    ensures Escape(a + b) == Escape(a) + Escape(b)
    decreases |a|
  {
    if a == [] {
      assert a + b == b;
    } else {
      assert (a + b)[1..] == a[1..] + b;
      EscapeAppend(a[1..], b);
    }
  }

  /** `sanitize_latex` in short: escaping reserved characters, and nothing else. */
  lemma SanitizeLatexSpec(s: string)
    ensures |SanitizeLatex(s)| == |s| + CountReserved(s)
    ensures Unescape(SanitizeLatex(s)) == s
  {
    SanitizeIsEscape(s);
    EscapeLength(s);
    UnescapeEscape(s);
  }

  // ---------------------------------------------------------------------------
  // Quantities and timers

  /** `format_quantity`: the value, then a space and the unit when there is one. */
  function FormatQuantity(q: Quantity): string {
    match q.unit
    case Some(unit) => q.value + " " + unit
    case None => q.value
  }

  /** Splits "value unit" at its first space. */
  function ParseQuantity(s: string): Quantity {
    var k := IndexOf(s, ' ');
    if k == |s| then Quantity(s, None) else Quantity(s[..k], Some(s[k + 1..]))
  }

  /** A formatted quantity whose value has no space reads back as itself. */
  lemma ParseFormatQuantity(q: Quantity)
    requires Free(q.value, ' ')
    ensures ParseQuantity(FormatQuantity(q)) == q
  {
    match q.unit
    case Some(unit) =>
      IndexOfAfter(q.value, ' ', unit);
      var s := FormatQuantity(q);
      assert s == q.value + [' '] + unit;
      assert s[..|q.value|] == q.value;
      assert s[|q.value| + 1..] == unit;
    case None =>
      IndexOfFree(q.value, ' ');
  }

  /**
    * `format_timer`: the quantity, then the name in parentheses, whichever are present.
    * A timer has at least one of the two.
    */
  function FormatTimer(quantity: Option<Quantity>, name: Option<string>): string
    requires quantity.Some? || name.Some?
  {
    match (quantity, name)
    case (Some(q), Some(n)) => FormatQuantity(q) + " (" + n + ")"
    case (Some(q), None) => FormatQuantity(q)
    case (None, Some(n)) => n
  }

  /**
    * A timer reads as its quantity when it has one, followed by its name in parentheses
    * when it has one; without a quantity it is just the name.
    */
  lemma FormatTimerShape(quantity: Option<Quantity>, name: Option<string>)
    requires quantity.Some? || name.Some?
    ensures var r := FormatTimer(quantity, name);
      (quantity.Some? ==> FormatQuantity(quantity.value) <= r)
      && (quantity.Some? && name.Some? ==>
            |r| >= |name.value| + 3 && r[|r| - |name.value| - 3..] == " (" + name.value + ")")
      && (quantity.Some? && name.None? ==> r == FormatQuantity(quantity.value))
      && (quantity.None? ==> r == name.value)
  {
    if quantity.Some? && name.Some? {
      var r := FormatTimer(quantity, name);
      var f := FormatQuantity(quantity.value);
      assert r == f + (" (" + name.value + ")");
    }
  }

  /**
    * Reads a timer back from its text. The text alone does not say whether a lone word is
    * a quantity or a name, so `hasQuantity` tells. With a quantity, the text is cut at its
    * first `(`: the quantity ends one space before it, and the name runs to the closing `)`.
    */
  function ParseTimer(s: string, hasQuantity: bool): (Option<Quantity>, Option<string>) {
    if !hasQuantity then (None, Some(s))
    else
      var k := IndexOf(s, '(');
      if 1 <= k && k + 2 <= |s| then (Some(ParseQuantity(s[..k - 1])), Some(s[k + 1..|s| - 1]))
      else (Some(ParseQuantity(s)), None)
  }

  /** A quantity without `(` in its value or unit formats to a text without `(`. */
  lemma FormatQuantityFree(q: Quantity)
    requires Free(q.value, '(') && (q.unit.Some? ==> Free(q.unit.value, '('))
    ensures Free(FormatQuantity(q), '(')
  {
    var f := FormatQuantity(q);
    forall i | 0 <= i < |f| ensures f[i] != '(' {
      if i >= |q.value| && q.unit.Some? {
        assert f == q.value + [' '] + q.unit.value;
        if i > |q.value| {
          assert f[i] == q.unit.value[i - |q.value| - 1];
        }
      }
    }
  }

  /**
    * A timer's quantity and name are read back from its text, given whether it has a
    * quantity, when the quantity's value has no space and neither the value nor the unit
    * has a `(`. The name may hold any character.
    */
  lemma ParseFormatTimer(quantity: Option<Quantity>, name: Option<string>)
    requires quantity.Some? || name.Some?
    requires quantity.Some? ==>
      Free(quantity.value.value, ' ') && Free(quantity.value.value, '(')
      && (quantity.value.unit.Some? ==> Free(quantity.value.unit.value, '('))
    ensures ParseTimer(FormatTimer(quantity, name), quantity.Some?) == (quantity, name)
  {
    match (quantity, name)
    case (Some(q), Some(n)) =>
      var f := FormatQuantity(q);
      var s := FormatTimer(quantity, name);
      FormatQuantityFree(q);
      var u := f + [' '];
      assert Free(u, '(') by {
        forall i | 0 <= i < |u| ensures u[i] != '(' {
          if i < |f| { assert u[i] == f[i]; }
        }
      }
      assert s == u + ['('] + (n + ")");
      IndexOfAfter(u, '(', n + ")");
      var k := |u|;
      assert s[..k - 1] == f;
      assert s[k + 1..|s| - 1] == n;
      ParseFormatQuantity(q);
    case (Some(q), None) =>
      FormatQuantityFree(q);
      IndexOfFree(FormatQuantity(q), '(');
      ParseFormatQuantity(q);
    case (None, Some(n)) =>
  }
}
