/** Placeholder substitution in output and upload file names. The clock is an
    input: the date and time fields are passed in rather than read. */
module Filenames {
  import opened Strings

  type Year = y: int | 1000 <= y <= 9999 witness 2000
  type Month = m: int | 1 <= m <= 12 witness 1
  type Day = d: int | 1 <= d <= 31 witness 1
  type Hour = h: int | 0 <= h < 24
  type Minute = m: int | 0 <= m < 60
  type Second = s: int | 0 <= s < 60

  datatype DateTime = DateTime(year: Year, month: Month, day: Day, hour: Hour, minute: Minute, second: Second)

  /** strftime's `%Y`: four digits for the years modelled here. */
  function YearText(t: DateTime): string
  {
    NatToString(t.year)
  }

  /** strftime's two-digit fields `%m`, `%d`, `%H`, `%M`, `%S`. */
  function TwoDigits(n: nat): string
  {
    ZeroPad(n, 2)
  }

  /** `format_filename` of the upload clients: each of `%Y`, `%m`, `%d`, `%H`,
      `%M`, `%S` is replaced everywhere by the time field, in that order, and
      then `%EXT%` by the extension. */
  function FormatFilename(template: string, t: DateTime, extension: string): string
  {
    FillUploadCodes(template, YearText(t), TwoDigits(t.month), TwoDigits(t.day),
                    TwoDigits(t.hour), TwoDigits(t.minute), TwoDigits(t.second), extension)
  }

  /** The replacement chain of `format_filename` over the already formatted
      field texts. */
  function FillUploadCodes(template: string, y: string, mo: string, d: string,
                           h: string, mi: string, s: string, extension: string): string
  {
    var f := Replace(template, "%Y", y);
    var f := Replace(f, "%m", mo);
    var f := Replace(f, "%d", d);
    var f := Replace(f, "%H", h);
    var f := Replace(f, "%M", mi);
    var f := Replace(f, "%S", s);
    Replace(f, "%EXT%", extension)
  }

  /** The output file name of the command-line generator as written: `%EXT%`
      becomes `mp3` first, then the tokens `%Y%`, `%m%`, `%d%`, `%H%`, `%M%`,
      `%S%`, in that order, each taking its field from a separate reading of
      the clock (`clock[0]` for the year, ..., `clock[5]` for the second). */
  function OutputFilenameAsWritten(template: string, clock: seq<DateTime>): string
    requires |clock| == 6
  {
    FillOutputTokens(Replace(template, "%EXT%", "mp3"), YearText(clock[0]), TwoDigits(clock[1].month),
                     TwoDigits(clock[2].day), TwoDigits(clock[3].hour), TwoDigits(clock[4].minute),
                     TwoDigits(clock[5].second))
  }

  /** The generator's token replacements over the formatted field texts. */
  function FillOutputTokens(name: string, y: string, mo: string, d: string,
                            h: string, mi: string, s: string): string
  {
    var f := Replace(name, "%Y%", y);
    var f := Replace(f, "%m%", mo);
    var f := Replace(f, "%d%", d);
    var f := Replace(f, "%H%", h);
    var f := Replace(f, "%M%", mi);
    Replace(f, "%S%", s)
  }

  /** The output file name with every field taken from one reading of the
      clock. */
  function OutputFilename(template: string, t: DateTime): string
  {
    OutputFilenameAsWritten(template, [t, t, t, t, t, t])
  }

  // ---------------------------------------------------------------------------
  // Field widths
  // ---------------------------------------------------------------------------

  function Pow10(k: nat): nat
  {
    if k == 0 then 1 else 10 * Pow10(k - 1)
  }

  /** A number below 10^k has at most k digits, and one of at least 10^k has
      more than k. */
  lemma {:induction false} NatToStringLength(n: nat, k: nat)
    ensures n < Pow10(k) && k >= 1 ==> |NatToString(n)| <= k
    ensures n >= Pow10(k) ==> |NatToString(n)| > k
    decreases k
  {
    if k >= 1 {
      NatToStringLength(n / 10, k - 1);
      assert n < Pow10(k) ==> n / 10 < Pow10(k - 1);
      assert n >= Pow10(k) ==> n / 10 >= Pow10(k - 1);
      if n < 10 {
        assert Pow10(k) >= 10 by {
          Pow10Positive(k - 1);
        }
      }
    }
  }

  lemma {:induction false} Pow10Positive(k: nat)
    ensures Pow10(k) >= 1
    decreases k
  {
    if k > 0 {
      Pow10Positive(k - 1);
    }
  }

  /** Every two-digit field is exactly two digits long and denotes its value. */
  lemma TwoDigitsShape(n: nat)
    requires n < 100
    ensures |TwoDigits(n)| == 2 && AllDigits(TwoDigits(n)) && DigitsValue(TwoDigits(n)) == n
  {
    NatToStringLength(n, 2);
  }

  /** The year field is exactly four digits long and denotes the year. */
  lemma YearTextShape(t: DateTime)
    ensures |YearText(t)| == 4 && AllDigits(YearText(t)) && DigitsValue(YearText(t)) == t.year
  {
    NatToStringLength(t.year, 4);
    NatToStringLength(t.year, 3);
    NatToStringValue(t.year);
  }

  /** Substituted digits never contain `%`, so they cannot start a new
      placeholder. */
  lemma DigitsHaveNoPercent(s: string)
    requires AllDigits(s)
    ensures '%' !in s
  {
  }

  // ---------------------------------------------------------------------------
  // Properties of the upload file names
  // ---------------------------------------------------------------------------

  /** A template without `%` is returned unchanged. */
  lemma NoPlaceholderUnchanged(template: string, t: DateTime, extension: string)
    requires '%' !in template
    ensures FormatFilename(template, t, extension) == template
  {
    ReplaceAbsent(template, "%Y", YearText(t));
    ReplaceAbsent(template, "%m", TwoDigits(t.month));
    ReplaceAbsent(template, "%d", TwoDigits(t.day));
    ReplaceAbsent(template, "%H", TwoDigits(t.hour));
    ReplaceAbsent(template, "%M", TwoDigits(t.minute));
    ReplaceAbsent(template, "%S", TwoDigits(t.second));
    ReplaceAbsent(template, "%EXT%", extension);
  }

  /** None of the letters that follow `%` in a time code. */
  predicate NoTimeCodeLetter(s: string)
  {
    'Y' !in s && 'm' !in s && 'd' !in s && 'H' !in s && 'M' !in s && 'S' !in s
  }

  /** A template whose text has none of the time-code letters only has its
      extension filled in. */
  lemma FormatWithoutTimeCodes(template: string, t: DateTime, extension: string)
    requires NoTimeCodeLetter(template)
    ensures FormatFilename(template, t, extension) == Replace(template, "%EXT%", extension)
  {
    ReplaceAbsentByChar(template, "%Y", YearText(t), 1);
    ReplaceAbsentByChar(template, "%m", TwoDigits(t.month), 1);
    ReplaceAbsentByChar(template, "%d", TwoDigits(t.day), 1);
    ReplaceAbsentByChar(template, "%H", TwoDigits(t.hour), 1);
    ReplaceAbsentByChar(template, "%M", TwoDigits(t.minute), 1);
    ReplaceAbsentByChar(template, "%S", TwoDigits(t.second), 1);
  }

  /** Plain text followed by `%EXT%` becomes the text followed by the
      extension. */
  lemma FormatTextThenExtension(text: string, t: DateTime, extension: string)
    requires '%' !in text && NoTimeCodeLetter(text)
    ensures FormatFilename(text + "%EXT%", t, extension) == text + extension
  {
    assert NoTimeCodeLetter(text + "%EXT%");
    FormatWithoutTimeCodes(text + "%EXT%", t, extension);
    ReplaceSingleByChar(text, "%EXT%", "", extension, 1);
    assert text + "%EXT%" + "" == text + "%EXT%";
    assert text + extension + "" == text + extension;
  }

  /** The default AzuraCast template `news.%EXT%` gives `news.<extension>`. */
  lemma DefaultAzuraCastName(t: DateTime, extension: string)
    ensures FormatFilename("news.%EXT%", t, extension) == "news." + extension
  {
    assert "news.%EXT%" == "news." + "%EXT%";
    FormatTextThenExtension("news.", t, extension);
  }

  /** No formatted field holds a `%`. */
  lemma FieldsHaveNoPercent(t: DateTime)
    ensures '%' !in YearText(t) && '%' !in TwoDigits(t.month) && '%' !in TwoDigits(t.day)
    ensures '%' !in TwoDigits(t.hour) && '%' !in TwoDigits(t.minute) && '%' !in TwoDigits(t.second)
  {
    YearTextShape(t);
    TwoDigitsShape(t.month);
    TwoDigitsShape(t.day);
    TwoDigitsShape(t.hour);
    TwoDigitsShape(t.minute);
    TwoDigitsShape(t.second);
  }

  /** Three consecutive codes, after text without `%` and
      before text without their letters, become the three fields. */
  lemma ThreeCodesInOrder(p0: string, c0: string, c1: string, c2: string, rest: string,
                          v0: string, v1: string, v2: string)
    requires |c0| >= 2 && |c1| >= 2 && |c2| >= 2 && c0[0] == '%' && c1[0] == '%' && c2[0] == '%'
    requires '%' !in p0 && '%' !in v0 && '%' !in v1
    requires c0[1] !in rest && c1[1] !in rest && c2[1] !in rest
    requires c0[1] !in c1 + c2 && c1[1] !in c2
    ensures Replace(Replace(Replace(p0 + (c0 + c1 + c2) + rest, c0, v0), c1, v1), c2, v2)
         == p0 + v0 + v1 + v2 + rest
  {
    var r2 := c2 + rest;
    var r1 := c1 + r2;
    assert p0 + (c0 + c1 + c2) + rest == p0 + c0 + r1;
    ReplaceSingleByChar(p0, c0, r1, v0, 1);
    var x1 := p0 + v0;
    assert x1 + r1 == x1 + c1 + r2;
    ReplaceSingleByChar(x1, c1, r2, v1, 1);
    var x2 := x1 + v1;
    assert x2 + r2 == x2 + c2 + rest;
    ReplaceSingleByChar(x2, c2, rest, v2, 1);
  }

  /** A template holding every code once, in the order they are replaced,
      with plain text between them, gets each field in its place. */
  lemma FillAllCodesInOrder(p0: string, p1: string, p2: string, y: string, mo: string, d: string,
                            h: string, mi: string, s: string, extension: string)
    requires '%' !in p0 && '%' !in p1 && '%' !in p2
    requires NoTimeCodeLetter(p1) && NoTimeCodeLetter(p2)
    requires '%' !in y && '%' !in mo && '%' !in d && '%' !in h && '%' !in mi && '%' !in s
    ensures FillUploadCodes(p0 + "%Y%m%d" + p1 + "%H%M%S" + p2 + "%EXT%", y, mo, d, h, mi, s, extension)
         == p0 + y + mo + d + p1 + h + mi + s + p2 + extension
  {
    var rest := p1 + "%H%M%S" + p2 + "%EXT%";
    var tail := p2 + "%EXT%";
    TemplateSplits(p0, p1, p2);
    ThreeCodesInOrder(p0, "%Y", "%m", "%d", rest, y, mo, d);
    var x := p0 + y + mo + d + p1;
    assert p0 + y + mo + d + rest == x + ("%H" + "%M" + "%S") + tail;
    ThreeCodesInOrder(x, "%H", "%M", "%S", tail, h, mi, s);
    var z := x + h + mi + s + p2;
    assert x + h + mi + s + tail == z + "%EXT%" + "";
    ReplaceSingleByChar(z, "%EXT%", "", extension, 1);
  }

  /** How the upload template splits into its codes and the text between. */
  lemma TemplateSplits(p0: string, p1: string, p2: string)
    requires NoTimeCodeLetter(p1) && NoTimeCodeLetter(p2)
    ensures var rest := p1 + "%H%M%S" + p2 + "%EXT%";
            && p0 + "%Y%m%d" + p1 + "%H%M%S" + p2 + "%EXT%" == p0 + ("%Y" + "%m" + "%d") + rest
            && 'Y' !in rest && 'm' !in rest && 'd' !in rest
    ensures var tail := p2 + "%EXT%";
            'H' !in tail && 'M' !in tail && 'S' !in tail
  {
    assert "%Y%m%d" == "%Y" + "%m" + "%d" && "%H%M%S" == "%H" + "%M" + "%S";
  }

  /** The same for the upload clients' own clock reading. */
  lemma FormatAllCodesInOrder(p0: string, p1: string, p2: string, t: DateTime, extension: string)
    requires '%' !in p0 && '%' !in p1 && '%' !in p2
    requires NoTimeCodeLetter(p1) && NoTimeCodeLetter(p2)
    ensures FormatFilename(p0 + "%Y%m%d" + p1 + "%H%M%S" + p2 + "%EXT%", t, extension)
         == p0 + YearText(t) + TwoDigits(t.month) + TwoDigits(t.day) + p1
            + TwoDigits(t.hour) + TwoDigits(t.minute) + TwoDigits(t.second) + p2 + extension
  {
    FieldsHaveNoPercent(t);
    FillAllCodesInOrder(p0, p1, p2, YearText(t), TwoDigits(t.month), TwoDigits(t.day),
                        TwoDigits(t.hour), TwoDigits(t.minute), TwoDigits(t.second), extension);
  }

  /** The default S3 template `news_%Y%m%d_%H%M%S.%EXT%` gives
      `news_YYYYmmdd_HHMMSS.<extension>`. */
  lemma DefaultS3Name(t: DateTime, extension: string)
    ensures FormatFilename("news_%Y%m%d_%H%M%S.%EXT%", t, extension)
         == "news_" + YearText(t) + TwoDigits(t.month) + TwoDigits(t.day) + "_"
            + TwoDigits(t.hour) + TwoDigits(t.minute) + TwoDigits(t.second) + "." + extension
  {
    assert "news_%Y%m%d_%H%M%S.%EXT%" == "news_" + "%Y%m%d" + "_" + "%H%M%S" + "." + "%EXT%";
    FormatAllCodesInOrder("news_", "_", ".", t, extension);
  }

  // ---------------------------------------------------------------------------
  // Properties of the output file name
  // ---------------------------------------------------------------------------

  /** The default output template `livenews.%EXT%` gives `livenews.mp3`. */
  lemma DefaultOutputName(t: DateTime)
    ensures OutputFilename("livenews.%EXT%", t) == "livenews.mp3"
  {
    ReplaceSingle("livenews.", "%EXT%", "", "mp3");
    assert "livenews." + "%EXT%" + "" == "livenews.%EXT%";
    var f := "livenews.mp3";
    assert "livenews." + "mp3" + "" == f;
    ReplaceAbsent(f, "%Y%", YearText(t));
    ReplaceAbsent(f, "%m%", TwoDigits(t.month));
    ReplaceAbsent(f, "%d%", TwoDigits(t.day));
    ReplaceAbsent(f, "%H%", TwoDigits(t.hour));
    ReplaceAbsent(f, "%M%", TwoDigits(t.minute));
    ReplaceAbsent(f, "%S%", TwoDigits(t.second));
  }

  /** The generator's tokens end in `%`: the upload clients' `%Y` form is left
      in the output name untouched. */
  lemma OutputKeepsUploadTokens(t: DateTime)
    ensures OutputFilename("%Y_%EXT%", t) == "%Y_mp3"
  {
    var s := "%Y_%EXT%";
    assert s[3..8] == "%EXT%";
    ReplaceSingleAtByChar(s, "%EXT%", 3, "mp3", 1);
    var f := "%Y_mp3";
    assert s[..3] + "mp3" + s[8..] == f;
    // Any occurrence of a generator token would need a `%` after the `Y`.
    var tail := f[2..];
    assert '%' !in tail;
    ReplaceTokenAfter(f, "%Y%", YearText(t));
    ReplaceTokenAfter(f, "%m%", TwoDigits(t.month));
    ReplaceTokenAfter(f, "%d%", TwoDigits(t.day));
    ReplaceTokenAfter(f, "%H%", TwoDigits(t.hour));
    ReplaceTokenAfter(f, "%M%", TwoDigits(t.minute));
    ReplaceTokenAfter(f, "%S%", TwoDigits(t.second));
  }

  /** In `%Y_mp3` no three-character token `%X%` can occur: its closing `%`
      would have to fall after the second character. */
  lemma ReplaceTokenAfter(f: string, pat: string, rep: string)
    requires f == "%Y_mp3" && |pat| == 3 && pat[2] == '%'
    ensures Replace(f, pat, rep) == f
  {
    assert pat[2] !in f[Min(2, |f|)..Min(|f| + 2, |f|)];
    NoStartByChar(f, pat, 2, 0, |f|);
    ReplaceNoOccurrence(f, pat, rep);
  }

  /** The generator's tokens in `%H%%M%` become the hour and minute texts.
      The two tokens are parameters so that the text is reasoned about
      piece by piece. */
  lemma FillHourMinute(hToken: string, mToken: string, y: string, mo: string, d: string,
                       h: string, mi: string, s: string)
    requires hToken == "%H%" && mToken == "%M%"
    requires '%' !in h && '%' !in mi
    ensures FillOutputTokens(hToken + mToken, y, mo, d, h, mi, s) == h + mi
  {
    var name := hToken + mToken;
    assert 'Y' !in name && 'm' !in name && 'd' !in name;
    ReplaceAbsentByChar(name, "%Y%", y, 1);
    ReplaceAbsentByChar(name, "%m%", mo, 1);
    ReplaceAbsentByChar(name, "%d%", d, 1);
    assert "" + hToken + mToken == name;
    ReplaceSingleByChar("", hToken, mToken, h, 1);
    assert "" + h + mToken == h + mToken + "";
    ReplaceSingleByChar(h, mToken, "", mi, 1);
    assert h + mi + "" == h + mi;
    ReplaceAbsent(h + mi, "%S%", s);
  }

  /** `%H%%M%` with the hour from one reading of the clock and the minute
      from another. */
  lemma HourMinuteName(a: DateTime, b: DateTime)
    ensures OutputFilenameAsWritten("%H%%M%", [a, a, a, a, b, b]) == TwoDigits(a.hour) + TwoDigits(b.minute)
  {
    ReplaceAbsentByChar("%H%%M%", "%EXT%", "mp3", 1);
    FieldsHaveNoPercent(a);
    FieldsHaveNoPercent(b);
    assert "%H%%M%" == "%H%" + "%M%";
    FillHourMinute("%H%", "%M%", YearText(a), TwoDigits(a.month), TwoDigits(a.day), TwoDigits(a.hour), TwoDigits(b.minute),
                   TwoDigits(b.second));
  }

  /** When the clock passes the full hour between the reading for `%H%` and
      the reading for `%M%`, the name shows 09:00, a time that neither reading
      saw. */
  lemma OutputClockReadsDisagree(before: DateTime, after: DateTime)
    requires before == DateTime(2024, 5, 7, 9, 59, 59) && after == DateTime(2024, 5, 7, 10, 0, 0)
    ensures OutputFilenameAsWritten("%H%%M%", [before, before, before, before, after, after]) == "0900"
    ensures OutputFilename("%H%%M%", before) == "0959"
    ensures OutputFilename("%H%%M%", after) == "1000"
  {
    TwoDigitsExamples();
    assert OutputFilenameAsWritten("%H%%M%", [before, before, before, before, after, after]) == "0900" by {
      HourMinuteName(before, after);
    }
    assert OutputFilename("%H%%M%", before) == "0959" by {
      HourMinuteName(before, before);
    }
    assert OutputFilename("%H%%M%", after) == "1000" by {
      HourMinuteName(after, after);
    }
  }

  lemma TwoDigitsExamples()
    ensures TwoDigits(9) == "09" && TwoDigits(0) == "00" && TwoDigits(59) == "59" && TwoDigits(10) == "10"
  {
  }

  /** The generator's replacements pass through a tail without `%`. */
  lemma FillOutputTokensKeepsTail(name: string, tail: string, y: string, mo: string, d: string,
                                  h: string, mi: string, s: string)
    requires '%' !in tail
    ensures FillOutputTokens(name + tail, y, mo, d, h, mi, s) == FillOutputTokens(name, y, mo, d, h, mi, s) + tail
  {
    var f := name;
    ReplaceKeepsTail(f, tail, "%Y%", y);
    f := Replace(f, "%Y%", y);
    ReplaceKeepsTail(f, tail, "%m%", mo);
    f := Replace(f, "%m%", mo);
    ReplaceKeepsTail(f, tail, "%d%", d);
    f := Replace(f, "%d%", d);
    ReplaceKeepsTail(f, tail, "%H%", h);
    f := Replace(f, "%H%", h);
    ReplaceKeepsTail(f, tail, "%M%", mi);
    f := Replace(f, "%M%", mi);
    ReplaceKeepsTail(f, tail, "%S%", s);
  }

  /** How the output template splits into its tokens and the text between. */
  lemma OutputTemplateSplits(p0: string, p1: string, p2: string)
    requires NoTimeCodeLetter(p1) && NoTimeCodeLetter(p2)
    ensures var rest := p1 + "%H%%M%%S%" + p2;
            && p0 + "%Y%%m%%d%" + p1 + "%H%%M%%S%" + p2 == p0 + ("%Y%" + "%m%" + "%d%") + rest
            && 'Y' !in rest && 'm' !in rest && 'd' !in rest
    ensures 'H' !in p2 && 'M' !in p2 && 'S' !in p2
  {
    assert "%Y%%m%%d%" == "%Y%" + "%m%" + "%d%" && "%H%%M%%S%" == "%H%" + "%M%" + "%S%";
  }

  /** A name holding every token once, in the order they are replaced, with
      plain text between them, gets each field in its place. */
  lemma FillAllTokensInOrder(p0: string, p1: string, p2: string, y: string, mo: string, d: string,
                             h: string, mi: string, s: string)
    requires '%' !in p0 && '%' !in p1 && '%' !in p2
    requires NoTimeCodeLetter(p1) && NoTimeCodeLetter(p2)
    requires '%' !in y && '%' !in mo && '%' !in d && '%' !in h && '%' !in mi
    ensures FillOutputTokens(p0 + "%Y%%m%%d%" + p1 + "%H%%M%%S%" + p2, y, mo, d, h, mi, s)
         == p0 + y + mo + d + p1 + h + mi + s + p2
  {
    var rest := p1 + "%H%%M%%S%" + p2;
    OutputTemplateSplits(p0, p1, p2);
    ThreeCodesInOrder(p0, "%Y%", "%m%", "%d%", rest, y, mo, d);
    var x := p0 + y + mo + d + p1;
    assert p0 + y + mo + d + rest == x + ("%H%" + "%M%" + "%S%") + p2;
    ThreeCodesInOrder(x, "%H%", "%M%", "%S%", p2, h, mi, s);
  }

  /** With one reading of the clock, an output template of every token in
      order, plain text between them and the extension token at the end
      gives the reading's fields in their places and `mp3` at the end. */
  lemma OutputAllTokensInOrder(p0: string, p1: string, p2: string, t: DateTime)
    requires '%' !in p0 && '%' !in p1 && '%' !in p2
    requires NoTimeCodeLetter(p1) && NoTimeCodeLetter(p2)
    requires 'E' !in p0 && 'E' !in p1 && 'E' !in p2
    ensures OutputFilename(p0 + "%Y%%m%%d%" + p1 + "%H%%M%%S%" + p2 + "%EXT%", t)
         == p0 + YearText(t) + TwoDigits(t.month) + TwoDigits(t.day) + p1
            + TwoDigits(t.hour) + TwoDigits(t.minute) + TwoDigits(t.second) + p2 + "mp3"
  {
    var name := p0 + "%Y%%m%%d%" + p1 + "%H%%M%%S%" + p2;
    var template := name + "%EXT%";
    assert Replace(template, "%EXT%", "mp3") == name + "mp3" by {
      assert 'E' !in name;
      assert template[..|name|] == name && template[|name|..] == "%EXT%";
      assert 'E' !in template[1..|name| + 1] by {
        assert forall i :: 1 <= i < |name| ==> template[i] == name[i];
        assert template[|name|] == '%';
      }
      ReplaceSingleAtByChar(template, "%EXT%", |name|, "mp3", 1);
      assert template[|name| + 5..] == [];
    }
    FieldsHaveNoPercent(t);
    FillOutputTokensKeepsTail(name, "mp3", YearText(t), TwoDigits(t.month), TwoDigits(t.day),
                              TwoDigits(t.hour), TwoDigits(t.minute), TwoDigits(t.second));
    FillAllTokensInOrder(p0, p1, p2, YearText(t), TwoDigits(t.month), TwoDigits(t.day),
                         TwoDigits(t.hour), TwoDigits(t.minute), TwoDigits(t.second));
  }

  /** Read once, the clock gives every name a time it actually showed. */
  lemma OutputFilenameOneReading(t: DateTime)
    ensures OutputFilename("%H%%M%", t) == TwoDigits(t.hour) + TwoDigits(t.minute)
  {
    HourMinuteName(t, t);
  }
}
