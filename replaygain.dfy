/** Loudness tagging of the finished bulletin (src/replaygain/main.py):
    pulling ffmpeg's loudnorm JSON block out of its diagnostic text, building
    the `-metadata` arguments of the stream-copy remux, and the per-format
    table of tag keys that signal existing gain data. */
module ReplayGain {
  import opened Wrappers
  import opened Strings

  // ---------------------------------------------------------------------------
  // The analysis pass
  // ---------------------------------------------------------------------------

  /** The ffmpeg invocation of the analysis pass: EBU R128 loudnorm with an
      integrated target of -23 LUFS, loudness range 7 LU and true peak -2 dBTP,
      printing its measurements as JSON. */
  const AnalysisCommand: seq<string> :=
    ["ffmpeg", "-hide_banner", "-i", "pipe:0",
     "-af", "loudnorm=I=-23:LRA=7:TP=-2:print_format=json",
     "-f", "null", "-"]

  /** A decoded JSON object of string fields, in the object's own order;
      a Python dict has each key once. */
  predicate DistinctKeys(data: seq<(string, string)>) {
    forall i, j :: 0 <= i < j < |data| ==> data[i].0 != data[j].0
  }

  type LoudnessData = data: seq<(string, string)> | DistinctKeys(data)

  function Lookup(data: LoudnessData, key: string): (r: Option<string>)
    ensures r.Some? <==> exists i :: 0 <= i < |data| && data[i].0 == key
    ensures r.Some? ==> (key, r.value) in data
    decreases |data|
  {
    if data == [] then None
    else if data[0].0 == key then Some(data[0].1)
    else
      assert DistinctKeys(data[1..]) by {
        forall i, j | 0 <= i < j < |data[1..]| ensures data[1..][i].0 != data[1..][j].0 {
          assert data[1..][i] == data[i + 1] && data[1..][j] == data[j + 1];
        }
      }
      Lookup(data[1..], key)
  }

  datatype GainError =
    | AnalysisFailed(returnCode: int)   // CalledProcessError from the analysis pass
    | NoJsonOutput                      // RuntimeError: nothing between `{` and `}`
    | JsonDecodeError                   // json.loads rejected the captured text
    | InvalidMeasurement                // input_i or input_tp missing or NaN
    | InvalidR128Value(text: string)    // int() rejected R128_TRACK_GAIN
    | GainOverflow                      // OverflowError: int() of an infinite gain

  // ---------------------------------------------------------------------------
  // Scanning ffmpeg's diagnostic output for the JSON block
  // ---------------------------------------------------------------------------

  /** A line of ffmpeg's diagnostic output as the scanner sees it once
      stripped: a lone `{`, a lone `}`, or any other text. */
  datatype Line = Open | Close | Other(text: string)

  function Text(l: Line): string {
    match l
    case Open => "{"
    case Close => "}"
    case Other(t) => t
  }

  function Classify(t: string): (l: Line)
    ensures Text(l) == t
    ensures l.Open? <==> t == "{"
    ensures l.Close? <==> t == "}"
  {
    if t == "{" then Open else if t == "}" then Close
    else Other(t)
  }

  /** Every line stripped and classified. */
  function Marks(lines: seq<string>): (r: seq<Line>)
    ensures |r| == |lines| && forall k :: 0 <= k < |lines| ==> r[k] == Classify(Strip(lines[k]))
  {
    seq(|lines|, k requires 0 <= k < |lines| => Classify(Strip(lines[k])))
  }

  lemma MarksConcat(a: seq<string>, b: seq<string>)
    ensures Marks(a + b) == Marks(a) + Marks(b)
  {
    assert forall k :: 0 <= k < |a| ==> (a + b)[k] == a[k];
    assert forall k :: |a| <= k < |a| + |b| ==> (a + b)[k] == b[k - |a|];
  }

  /** Whether the scanner is inside a block after reading `ls[..n]`: a `{`
      line opens a block, a `}` line closes it, any other line leaves the
      state as it was. */
  ghost function Capturing(ls: seq<Line>, n: nat): bool
    requires n <= |ls|
  {
    if n == 0 then false
    else match ls[n - 1]
      case Open => true
      case Close => false
      case Other(_) => Capturing(ls, n - 1)
  }

  /** Line `k` is part of the captured text: it is `{`, or a block is open
      when it is read. */
  ghost predicate Captured(ls: seq<Line>, k: nat)
    requires k < |ls|
  {
    ls[k].Open? || Capturing(ls, k)
  }

  /** The captured lines among the first `n`, in order. */
  ghost function CapturedUpTo(ls: seq<Line>, n: nat): seq<Line>
    requires n <= |ls|
  {
    if n == 0 then []
    else CapturedUpTo(ls, n - 1) + (if Captured(ls, n - 1) then [ls[n - 1]] else [])
  }

  /** The text of lines, concatenated without separator. */
  function Concat(ls: seq<Line>): string
    decreases |ls|
  {
    if ls == [] then "" else Concat(ls[..|ls| - 1]) + Text(ls[|ls| - 1])
  }

  lemma AppendLine(json: string, ls: seq<Line>, line: string, l: Line)
    requires json == Concat(ls) && line == Text(l)
    ensures json + line == Concat(ls + [l])
  {
    assert (ls + [l])[..|ls|] == ls;
  }

  /** The scanner is inside a block exactly when some line read so far was
      `{` and no `}` line came after it. */
  lemma {:induction false} CapturingMeansOpenBlock(ls: seq<Line>, n: nat)
    requires n <= |ls|
    ensures Capturing(ls, n) <==>
      exists j :: 0 <= j < n && ls[j].Open? && forall k :: j < k < n ==> !ls[k].Close?
  {
    if n > 0 {
      match ls[n - 1]
      case Open =>
        assert ls[n - 1].Open?;
      case Close =>
        forall j | 0 <= j < n && ls[j].Open?
          ensures exists k :: j < k < n && ls[k].Close?
        {
          assert j < n - 1 && ls[n - 1].Close?;
        }
      case Other(_) =>
        CapturingMeansOpenBlock(ls, n - 1);
        if Capturing(ls, n - 1) {
          var j :| 0 <= j < n - 1 && ls[j].Open? && forall k :: j < k < n - 1 ==> !ls[k].Close?;
          assert forall k :: j < k < n ==> !ls[k].Close?;
        }
        if exists j :: 0 <= j < n && ls[j].Open? && forall k :: j < k < n ==> !ls[k].Close? {
          var j :| 0 <= j < n && ls[j].Open? && forall k :: j < k < n ==> !ls[k].Close?;
          assert j < n - 1;
          assert forall k :: j < k < n - 1 ==> !ls[k].Close?;
        }
    }
  }

  /** One stripped line handled by the scan of `calculate_replaygain`: a `{`
      line is appended and starts capturing; while capturing every line is
      appended, and a `}` line stops capturing. Given the state after
      `ls[..i]` and the text of `ls[i]`, it yields the state after `ls[..i + 1]`. */
  method ScanLine(line: string, json: string, capturing: bool, ghost ls: seq<Line>, ghost i: nat)
    returns (json': string, capturing': bool)
    requires i < |ls| && ls[i] == Classify(line)
    requires capturing == Capturing(ls, i) && json == Concat(CapturedUpTo(ls, i))
    ensures capturing' == Capturing(ls, i + 1)
    ensures json' == Concat(CapturedUpTo(ls, i + 1))
  {
    ScanStep(ls, i);
    json', capturing' := json, capturing;
    if line == "{" {
      AppendLine(json, CapturedUpTo(ls, i), line, ls[i]);
      json' := json + line;
      capturing' := true;
    } else if capturing {
      AppendLine(json, CapturedUpTo(ls, i), line, ls[i]);
      json' := json + line;
      if line == "}" {
        capturing' := false;
      }
    }
  }

  /** The scan over all of ffmpeg's diagnostic lines, each stripped first.
      The result is the text of the captured lines. */
  method ScanJsonBlock(lines: seq<string>) returns (json: string)
    ensures json == Concat(CapturedUpTo(Marks(lines), |lines|))
  {
    ghost var ls := Marks(lines);
    json := "";
    var capturing := false;
    var i := 0;
    while i < |lines|
      invariant 0 <= i <= |lines|
      invariant capturing == Capturing(ls, i)
      invariant json == Concat(CapturedUpTo(ls, i))
    {
      var line := Strip(lines[i]);
      json, capturing := ScanLine(line, json, capturing, ls, i);
      i := i + 1;
    }
  }

  /** One line read: what it does to the state and to the captured lines. */
  lemma ScanStep(ls: seq<Line>, i: nat)
    requires i < |ls|
    ensures Capturing(ls, i + 1) == (ls[i].Open? || (Capturing(ls, i) && !ls[i].Close?))
    ensures ls[i].Open? || Capturing(ls, i) ==> CapturedUpTo(ls, i + 1) == CapturedUpTo(ls, i) + [ls[i]]
    ensures !ls[i].Open? && !Capturing(ls, i) ==> CapturedUpTo(ls, i + 1) == CapturedUpTo(ls, i)
  {
    assert CapturedUpTo(ls, i) + [] == CapturedUpTo(ls, i);
  }

  /** With no block open and no `{` among the lines read next, no block opens. */
  lemma {:induction false} StaysClosed(ls: seq<Line>, a: nat, b: nat)
    requires a <= b <= |ls| && !Capturing(ls, a)
    requires forall k :: a <= k < b ==> !ls[k].Open?
    ensures !Capturing(ls, b)
    decreases b - a
  {
    if a < b {
      StaysClosed(ls, a, b - 1);
    }
  }

  /** With a block open and no `}` among the lines read next, it stays open. */
  lemma {:induction false} StaysOpen(ls: seq<Line>, a: nat, b: nat)
    requires a <= b <= |ls| && Capturing(ls, a)
    requires forall k :: a <= k < b ==> !ls[k].Close?
    ensures Capturing(ls, b)
    decreases b - a
  {
    if a < b {
      StaysOpen(ls, a, b - 1);
    }
  }

  /** Lines that are not captured leave the captured lines unchanged. */
  lemma {:induction false} UncapturedSpan(ls: seq<Line>, a: nat, b: nat)
    requires a <= b <= |ls|
    requires forall k :: a <= k < b ==> !Captured(ls, k)
    ensures CapturedUpTo(ls, b) == CapturedUpTo(ls, a)
    decreases b - a
  {
    if a < b {
      UncapturedSpan(ls, a, b - 1);
    }
  }

  /** A run of captured lines is taken over as it stands. */
  lemma {:induction false} CapturedSpan(ls: seq<Line>, a: nat, b: nat)
    requires a <= b <= |ls|
    requires forall k :: a <= k < b ==> Captured(ls, k)
    ensures CapturedUpTo(ls, b) == CapturedUpTo(ls, a) + ls[a..b]
    decreases b - a
  {
    if a < b {
      CapturedSpan(ls, a, b - 1);
      assert ls[a..b] == ls[a..b - 1] + [ls[b - 1]];
    }
  }

  /** Output with no `{` line captures nothing and leaves no block open. */
  lemma NoOpenerNothingCaptured(ls: seq<Line>)
    requires forall k :: 0 <= k < |ls| ==> !ls[k].Open?
    ensures CapturedUpTo(ls, |ls|) == [] && !Capturing(ls, |ls|)
  {
    forall k | 0 <= k < |ls| ensures !Captured(ls, k) {
      StaysClosed(ls, 0, k);
    }
    UncapturedSpan(ls, 0, |ls|);
    StaysClosed(ls, 0, |ls|);
  }

  /** A `{` line followed by lines none of which is `}` is captured whole,
      and the block is still open at the end. */
  lemma OpenBlock(body: seq<Line>)
    requires forall k :: 0 <= k < |body| ==> !body[k].Close?
    ensures var ls := [Open] + body; CapturedUpTo(ls, |ls|) == ls && Capturing(ls, |ls|)
  {
    var ls := [Open] + body;
    assert forall k :: 0 < k < |ls| ==> ls[k] == body[k - 1];
    forall k | 0 <= k < |ls| ensures Captured(ls, k) {
      if k > 0 { StaysOpen(ls, 1, k); }
    }
    CapturedSpan(ls, 0, |ls|);
    assert ls[0..|ls|] == ls;
    StaysOpen(ls, 1, |ls|);
  }

  /** A block framed by a `{` line and a `}` line is captured whole, and no
      block is open after it. */
  lemma FramedBlock(body: seq<Line>)
    requires forall k :: 0 <= k < |body| ==> !body[k].Close?
    ensures var ls := [Open] + body + [Close]; CapturedUpTo(ls, |ls|) == ls && !Capturing(ls, |ls|)
  {
    var ls := [Open] + body + [Close];
    OpenBlock(body);
    PrefixUpTo([Open] + body, [Close], |ls| - 1);
    assert ls == ([Open] + body) + [Close];
    assert ls[|ls| - 1] == Close;
  }

  /** A block framed by a `{` line and a `}` line, with arbitrary noise
      before it and after it that holds no `{` line, is recovered exactly:
      the block's lines and nothing else. */
  lemma ScanRecoversBlock(pre: seq<Line>, body: seq<Line>, post: seq<Line>)
    requires forall k :: 0 <= k < |pre| ==> !pre[k].Open?
    requires forall k :: 0 <= k < |body| ==> !body[k].Close?
    requires forall k :: 0 <= k < |post| ==> !post[k].Open?
    ensures var ls := pre + [Open] + body + [Close] + post;
      CapturedUpTo(ls, |ls|) == [Open] + body + [Close]
  {
    var block := [Open] + body + [Close];
    NoOpenerNothingCaptured(pre);
    NoOpenerNothingCaptured(post);
    FramedBlock(body);
    ScanConcat(block, post);
    ScanConcat(pre, block + post);
    assert pre + [Open] + body + [Close] + post == pre + (block + post);
    assert [] + block == block && block + [] == block;
  }

  /** The text the scanner returns for such a block. */
  lemma ScanRecoversBlockText(pre: seq<Line>, body: seq<Line>, post: seq<Line>)
    requires forall k :: 0 <= k < |pre| ==> !pre[k].Open?
    requires forall k :: 0 <= k < |body| ==> !body[k].Close?
    requires forall k :: 0 <= k < |post| ==> !post[k].Open?
    ensures var ls := pre + [Open] + body + [Close] + post;
      Concat(CapturedUpTo(ls, |ls|)) == "{" + Concat(body) + "}"
  {
    ScanRecoversBlock(pre, body, post);
    ConcatFramed(body);
  }

  /** The same on ffmpeg's raw lines: around a `{` line and a `}` line,
      with no line before or after the block that strips to `{` and none
      inside it that strips to `}`, the scanner returns `{`, the stripped
      body lines run together, and `}`. */
  lemma ScanRecoversRawBlock(pre: seq<string>, body: seq<string>, post: seq<string>)
    requires forall k :: 0 <= k < |pre| ==> Strip(pre[k]) != "{"
    requires forall k :: 0 <= k < |body| ==> Strip(body[k]) != "}"
    requires forall k :: 0 <= k < |post| ==> Strip(post[k]) != "{"
    ensures var lines := pre + ["{"] + body + ["}"] + post;
      Concat(CapturedUpTo(Marks(lines), |lines|)) == "{" + Concat(Marks(body)) + "}"
  {
    StripTrimmed("{");
    StripTrimmed("}");
    MarksConcat(pre, ["{"]);
    MarksConcat(pre + ["{"], body);
    MarksConcat(pre + ["{"] + body, ["}"]);
    MarksConcat(pre + ["{"] + body + ["}"], post);
    assert Marks(["{"]) == [Open] && Marks(["}"]) == [Close];
    ScanRecoversBlockText(Marks(pre), Marks(body), Marks(post));
  }

  /** A `{` that is never closed captures everything to the end. */
  lemma ScanUnclosedBlock(pre: seq<Line>, body: seq<Line>)
    requires forall k :: 0 <= k < |pre| ==> !pre[k].Open?
    requires forall k :: 0 <= k < |body| ==> !body[k].Close?
    ensures var ls := pre + [Open] + body;
      CapturedUpTo(ls, |ls|) == [Open] + body
  {
    NoOpenerNothingCaptured(pre);
    OpenBlock(body);
    ScanConcat(pre, [Open] + body);
    assert pre + [Open] + body == pre + ([Open] + body);
    assert [] + ([Open] + body) == [Open] + body;
  }

  lemma {:induction false} ConcatFront(first: Line, rest: seq<Line>)
    ensures Concat([first] + rest) == Text(first) + Concat(rest)
    decreases |rest|
  {
    var s := [first] + rest;
    if rest == [] {
      assert s[..0] == [];
    } else {
      var init, last := rest[..|rest| - 1], rest[|rest| - 1];
      assert s[..|s| - 1] == [first] + init;
      assert s[|s| - 1] == last;
      ConcatFront(first, init);
      assert Concat(s) == Text(first) + Concat(init) + Text(last);
      assert Concat(rest) == Concat(init) + Text(last);
    }
  }

  lemma ConcatFramed(body: seq<Line>)
    ensures Concat([Open] + body + [Close]) == "{" + Concat(body) + "}"
  {
    var s := [Open] + body + [Close];
    assert s[..|s| - 1] == [Open] + body;
    ConcatFront(Open, body);
  }

  /** Blocks are collected in the order they appear: when the first part of
      the output leaves no block open, the second part is scanned afresh. */
  lemma ScanConcat(a: seq<Line>, b: seq<Line>)
    requires !Capturing(a, |a|)
    ensures CapturedUpTo(a + b, |a + b|) == CapturedUpTo(a, |a|) + CapturedUpTo(b, |b|)
  {
    PrefixUpTo(a, b, |a|);
    ConcatUpTo(a, b, |b|);
  }

  /** Reading a prefix does not depend on what follows it. */
  lemma {:induction false} PrefixUpTo(a: seq<Line>, b: seq<Line>, n: nat)
    requires n <= |a|
    ensures Capturing(a + b, n) == Capturing(a, n)
    ensures CapturedUpTo(a + b, n) == CapturedUpTo(a, n)
  {
    if n > 0 {
      PrefixUpTo(a, b, n - 1);
      assert (a + b)[n - 1] == a[n - 1];
    }
  }

  /** Past a prefix that leaves no block open, the state depends on the
      suffix alone. */
  lemma {:induction false} ConcatUpTo(a: seq<Line>, b: seq<Line>, m: nat)
    requires m <= |b| && !Capturing(a, |a|)
    requires CapturedUpTo(a + b, |a|) == CapturedUpTo(a, |a|) && Capturing(a + b, |a|) == Capturing(a, |a|)
    ensures Capturing(a + b, |a| + m) == Capturing(b, m)
    ensures CapturedUpTo(a + b, |a| + m) == CapturedUpTo(a, |a|) + CapturedUpTo(b, m)
  {
    if m > 0 {
      ConcatUpTo(a, b, m - 1);
      assert (a + b)[|a| + m - 1] == b[m - 1];
    }
  }

  // ---------------------------------------------------------------------------
  // calculate_replaygain
  // ---------------------------------------------------------------------------

  /** The loudness measured by the analysis pass: `input_i` (integrated
      loudness, the gain) and `input_tp` (true peak) as the JSON renders
      them, and the whole decoded object. */
  datatype Analysis = Analysis(gain: string, peak: string, data: LoudnessData)

  /** Python's `float()` of one of the spellings of NaN. */
  predicate IsNanText(text: string) {
    var t := Lower(Strip(text));
    t == "nan" || t == "+nan" || t == "-nan"
  }

  /** Python's `float()` of one of the spellings of an infinity, which the
      NaN check lets through. */
  predicate IsInfText(text: string) {
    var t := Lower(Strip(text));
    t in {"inf", "+inf", "-inf", "infinity", "+infinity", "-infinity"}
  }

  /** A measurement field as `float(parsed_data.get(key, 'nan'))` sees it:
      absent means NaN. */
  function Measurement(data: LoudnessData, key: string): (r: Option<string>)
    ensures r.Some? <==> Lookup(data, key).Some? && !IsNanText(Lookup(data, key).value)
    ensures r.Some? ==> (key, r.value) in data
  {
    match Lookup(data, key)
    case None => None
    case Some(v) => if IsNanText(v) then None else Some(v)
  }

  /** The text the scan of the analysis pass' diagnostic output collects. */
  ghost function CapturedText(stderr: string): string
  {
    Concat(CapturedUpTo(Marks(SplitLines(stderr)), |SplitLines(stderr)|))
  }

  /** What `calculate_replaygain` returns or raises, given the return code and
      diagnostic text of the ffmpeg run; `decode` stands for `json.loads`
      (None: the text is not a JSON object of strings). */
  ghost function AnalysisResult(returnCode: int, stderr: string, decode: string -> Option<LoudnessData>): Result<Analysis, GainError>
  {
    if returnCode != 0 then Failure(AnalysisFailed(returnCode))
    else if CapturedText(stderr) == "" then Failure(NoJsonOutput)
    else match decode(CapturedText(stderr))
      case None => Failure(JsonDecodeError)
      case Some(data) =>
        var gain, peak := Measurement(data, "input_i"), Measurement(data, "input_tp");
        if gain.None? || peak.None? then Failure(InvalidMeasurement)
        else Success(Analysis(gain.value, peak.value, data))
  }

  /** `calculate_replaygain` once the ffmpeg run is done: the scan loop, then
      the checks in the order the source makes them. */
  method CalculateReplayGain(returnCode: int, stderr: string, decode: string -> Option<LoudnessData>)
    returns (r: Result<Analysis, GainError>)
    ensures r == AnalysisResult(returnCode, stderr, decode)
    ensures returnCode != 0 ==> r == Failure(AnalysisFailed(returnCode))
    ensures returnCode == 0 && CapturedText(stderr) == "" ==> r == Failure(NoJsonOutput)
    ensures returnCode == 0 && CapturedText(stderr) != "" ==>
      var decoded := decode(CapturedText(stderr));
      if decoded.None? then r == Failure(JsonDecodeError)
      else
        var gain, peak := Measurement(decoded.value, "input_i"), Measurement(decoded.value, "input_tp");
        if gain.None? || peak.None? then r == Failure(InvalidMeasurement)
        else r == Success(Analysis(gain.value, peak.value, decoded.value))
  {
    if returnCode != 0 {
      return Failure(AnalysisFailed(returnCode));
    }
    var json := ScanJsonBlock(SplitLines(stderr));
    if json == "" {
      return Failure(NoJsonOutput);
    }
    var decoded := decode(json);
    if decoded.None? {
      return Failure(JsonDecodeError);
    }
    var gain := Measurement(decoded.value, "input_i");
    var peak := Measurement(decoded.value, "input_tp");
    if gain.None? || peak.None? {
      return Failure(InvalidMeasurement);
    }
    return Success(Analysis(gain.value, peak.value, decoded.value));
  }

  // ---------------------------------------------------------------------------
  // apply_replaygain: the remux command
  // ---------------------------------------------------------------------------

  /** The f-string `f'{key}={value}'`. */
  function TagArg(key: string, value: string): string {
    key + "=" + value
  }

  /** One `-metadata key=value` argument pair per tag, in order. */
  function TagArgs(tags: seq<(string, string)>): seq<string>
    decreases |tags|
  {
    if tags == [] then []
    else ["-metadata", TagArg(tags[0].0, tags[0].1)] + TagArgs(tags[1..])
  }

  /** Reading the arguments two at a time gives back the tags. */
  lemma {:induction false} TagArgsLayout(tags: seq<(string, string)>)
    ensures |TagArgs(tags)| == 2 * |tags|
    ensures forall i :: 0 <= i < |tags| ==>
      TagArgs(tags)[2 * i] == "-metadata" && TagArgs(tags)[2 * i + 1] == TagArg(tags[i].0, tags[i].1)
    decreases |tags|
  {
    if tags != [] {
      TagArgsLayout(tags[1..]);
      var r := TagArgs(tags);
      forall i | 1 <= i < |tags|
        ensures r[2 * i] == "-metadata" && r[2 * i + 1] == TagArg(tags[i].0, tags[i].1)
      {
        assert r[2 * i] == TagArgs(tags[1..])[2 * (i - 1)];
        assert r[2 * i + 1] == TagArgs(tags[1..])[2 * (i - 1) + 1];
        assert tags[1..][i - 1] == tags[i];
      }
    }
  }

  /** The tags `apply_replaygain` writes, in order: track gain and peak, the
      two R128 gains when given, then every extra loudness field. */
  function GainTags(gain: string, peak: string, r128Track: Option<int>, r128Album: Option<int>,
                    extra: Option<LoudnessData>): seq<(string, string)>
  {
    [("replaygain_track_gain", gain + " dB"), ("replaygain_track_peak", peak)]
    + (if r128Track.Some? then [("R128_TRACK_GAIN", IntToString(r128Track.value))] else [])
    + (if r128Album.Some? then [("R128_ALBUM_GAIN", IntToString(r128Album.value))] else [])
    + (if extra.Some? then extra.value else [])
  }

  /** The `metadata_cmd` list, grown in place with `extend`. */
  method BuildMetadataArgs(gain: string, peak: string, r128Track: Option<int>, r128Album: Option<int>,
                           extra: Option<LoudnessData>) returns (args: seq<string>)
    ensures args == TagArgs(GainTags(gain, peak, r128Track, r128Album, extra))
  {
    args := ["-metadata", TagArg("replaygain_track_gain", gain + " dB"),
             "-metadata", TagArg("replaygain_track_peak", peak)];
    ghost var tags := [("replaygain_track_gain", gain + " dB"), ("replaygain_track_peak", peak)];
    assert args == TagArgs(tags) by {
      assert tags[1..][1..] == [];
      assert TagArgs(tags[1..]) == ["-metadata", TagArg("replaygain_track_peak", peak)] + TagArgs([]);
    }
    if r128Track.Some? {
      TagArgsSnoc(tags, ("R128_TRACK_GAIN", IntToString(r128Track.value)));
      args := args + ["-metadata", TagArg("R128_TRACK_GAIN", IntToString(r128Track.value))];
      tags := tags + [("R128_TRACK_GAIN", IntToString(r128Track.value))];
    }
    if r128Album.Some? {
      TagArgsSnoc(tags, ("R128_ALBUM_GAIN", IntToString(r128Album.value)));
      args := args + ["-metadata", TagArg("R128_ALBUM_GAIN", IntToString(r128Album.value))];
      tags := tags + [("R128_ALBUM_GAIN", IntToString(r128Album.value))];
    }
    if extra.Some? && extra.value != [] {
      args := ExtendWithFields(args, tags, extra.value);
      tags := tags + extra.value;
    }
    assert tags == GainTags(gain, peak, r128Track, r128Album, extra);
  }

  /** The loop over the analysis fields: one `-metadata key=value` pair per
      field, in the object's order. */
  method ExtendWithFields(args: seq<string>, ghost tags: seq<(string, string)>, items: seq<(string, string)>)
    returns (args': seq<string>)
    requires args == TagArgs(tags)
    ensures args' == TagArgs(tags + items)
  {
    args' := args;
    var i := 0;
    assert tags + items[..0] == tags;
    while i < |items|
      invariant 0 <= i <= |items|
      invariant args' == TagArgs(tags + items[..i])
    {
      TagArgsSnoc(tags + items[..i], items[i]);
      assert items[..i + 1] == items[..i] + [items[i]];
      assert tags + items[..i + 1] == (tags + items[..i]) + [items[i]];
      args' := args' + ["-metadata", TagArg(items[i].0, items[i].1)];
      i := i + 1;
    }
    assert items[..i] == items;
  }

  lemma {:induction false} TagArgsConcat(a: seq<(string, string)>, b: seq<(string, string)>)
    ensures TagArgs(a + b) == TagArgs(a) + TagArgs(b)
    decreases |a|
  {
    if a == [] {
      assert a + b == b;
    } else {
      assert (a + b)[1..] == a[1..] + b;
      TagArgsConcat(a[1..], b);
    }
  }

  lemma TagArgsSnoc(tags: seq<(string, string)>, t: (string, string))
    ensures TagArgs(tags + [t]) == TagArgs(tags) + ["-metadata", TagArg(t.0, t.1)]
  {
    TagArgsConcat(tags, [t]);
  }

  /** The ffmpeg options mp3 output gets: ID3v2.3 tags plus an ID3v1 tag. */
  const Mp3Options: seq<string> := ["-id3v2_version", "3", "-write_id3v1", "1"]

  /** The remux command: read stdin, copy every stream without re-encoding,
      keep the input's metadata, add the gain tags, write `format` to stdout. */
  function RemuxCommand(format: string, metadata: seq<string>): (cmd: seq<string>)
    ensures |cmd| >= 12 && cmd[..9] == ["ffmpeg", "-hide_banner", "-y", "-i", "-", "-c", "copy", "-map_metadata", "0"]
    ensures cmd[|cmd| - 3..] == ["-f", format, "-"]
    ensures Lower(format) == "mp3" ==> |cmd| >= 16 && cmd[9..13] == Mp3Options && cmd[13..|cmd| - 3] == metadata
    ensures Lower(format) != "mp3" ==> cmd[9..|cmd| - 3] == metadata
  {
    var extra := if Lower(format) == "mp3" then Mp3Options else [];
    ["ffmpeg", "-hide_banner", "-y", "-i", "-", "-c", "copy", "-map_metadata", "0"]
    + extra + metadata + ["-f", format, "-"]
  }

  /** Every tag ends up in the remux command as a `-metadata key=value` pair. */
  lemma EveryTagReachesCommand(format: string, tags: seq<(string, string)>, i: nat)
    requires i < |tags|
    ensures var cmd := RemuxCommand(format, TagArgs(tags));
      exists p :: 0 <= p < |cmd| - 1 && cmd[p] == "-metadata" && cmd[p + 1] == TagArg(tags[i].0, tags[i].1)
  {
    TagArgsLayout(tags);
    var cmd := RemuxCommand(format, TagArgs(tags));
    var off := if Lower(format) == "mp3" then 13 else 9;
    assert cmd[off..|cmd| - 3] == TagArgs(tags);
    var p := off + 2 * i;
    assert cmd[p] == TagArgs(tags)[2 * i];
    assert cmd[p + 1] == TagArgs(tags)[2 * i + 1];
  }

  /** The remux never re-encodes: every stream is copied. */
  lemma RemuxCopiesStreams(format: string, metadata: seq<string>)
    ensures var cmd := RemuxCommand(format, metadata);
      cmd[5] == "-c" && cmd[6] == "copy" && cmd[7] == "-map_metadata" && cmd[8] == "0"
  {
    var cmd := RemuxCommand(format, metadata);
    assert cmd[5] == cmd[..9][5];
    assert cmd[6] == cmd[..9][6];
    assert cmd[7] == cmd[..9][7];
    assert cmd[8] == cmd[..9][8];
  }

  // ---------------------------------------------------------------------------
  // process_replaygain
  // ---------------------------------------------------------------------------

  /** The R128 track gain: the analysis' own `R128_TRACK_GAIN` field when it
      has one, otherwise `int((gain - 1.0) * 256)`. For a finite gain that
      value is `derived`; for an infinite gain `int()` raises. */
  function R128TrackGain(data: LoudnessData, gain: string, derived: int): (r: Result<int, GainError>)
    ensures Lookup(data, "R128_TRACK_GAIN").None? ==>
      r == if IsInfText(gain) then Failure(GainOverflow) else Success(derived)
    ensures Lookup(data, "R128_TRACK_GAIN").Some? ==>
      var text := Lookup(data, "R128_TRACK_GAIN").value;
      r == if ParseInt(text).Some? then Success(ParseInt(text).value) else Failure(InvalidR128Value(text))
  {
    match Lookup(data, "R128_TRACK_GAIN")
    case None => if IsInfText(gain) then Failure(GainOverflow) else Success(derived)
    case Some(text) =>
      match ParseInt(text)
      case Some(v) => Success(v)
      case None => Failure(InvalidR128Value(text))
  }

  /** The analysis' R128 field, when written as a decimal integer, is taken
      over unchanged. */
  lemma R128TrackGainKeepsField(data: LoudnessData, gain: string, derived: int, v: int)
    requires ("R128_TRACK_GAIN", IntToString(v)) in data
    ensures R128TrackGain(data, gain, derived) == Success(v)
  {
    var i :| 0 <= i < |data| && data[i] == ("R128_TRACK_GAIN", IntToString(v));
    assert Lookup(data, "R128_TRACK_GAIN").Some?;
    var w := Lookup(data, "R128_TRACK_GAIN").value;
    var i' :| 0 <= i' < |data| && data[i'] == ("R128_TRACK_GAIN", w);
    assert i == i';
    ParseIntRoundTrip(v);
  }

  /** The tags `process_replaygain` hands to `apply_replaygain` for an
      analysis and its R128 track gain: album gain 0 and every field. */
  function ProcessTags(a: Analysis, track: int): seq<(string, string)>
  {
    GainTags(a.gain, a.peak, Some(track), Some(0), Some(a.data))
  }

  /** What `process_replaygain` returns or raises: the analysis, then the R128
      track gain, then the remux command carrying the tags. */
  ghost function ProcessResult(returnCode: int, stderr: string, decode: string -> Option<LoudnessData>,
                         format: string, derivedTrackGain: int): Result<seq<string>, GainError>
  {
    match AnalysisResult(returnCode, stderr, decode)
    case Failure(e) => Failure(e)
    case Success(a) =>
      match R128TrackGain(a.data, a.gain, derivedTrackGain)
      case Failure(e) => Failure(e)
      case Success(track) => Success(RemuxCommand(format, TagArgs(ProcessTags(a, track))))
  }

  /** `process_replaygain`. `derivedTrackGain` stands for the value of the
      float expression the source computes from a finite gain. */
  method ProcessReplayGain(returnCode: int, stderr: string, decode: string -> Option<LoudnessData>,
                           format: string, derivedTrackGain: int)
    returns (r: Result<seq<string>, GainError>)
    ensures r == ProcessResult(returnCode, stderr, decode, format, derivedTrackGain)
    ensures returnCode != 0 ==> r == Failure(AnalysisFailed(returnCode))
  {
    var analysis := CalculateReplayGain(returnCode, stderr, decode);
    if analysis.Failure? {
      return Failure(analysis.error);
    }
    var a := analysis.value;
    var track := R128TrackGain(a.data, a.gain, derivedTrackGain);
    if track.Failure? {
      return Failure(track.error);
    }
    var metadata := BuildMetadataArgs(a.gain, a.peak, Some(track.value), Some(0), Some(a.data));
    r := Success(RemuxCommand(format, metadata));
  }

  /** The file is tagged exactly when the analysis succeeds and its R128
      field, if any, is an integer; a failed analysis fails the same way. */
  lemma ProcessSucceedsExactly(returnCode: int, stderr: string, decode: string -> Option<LoudnessData>,
                               format: string, derivedTrackGain: int)
    ensures var p := ProcessResult(returnCode, stderr, decode, format, derivedTrackGain);
            var a := AnalysisResult(returnCode, stderr, decode);
            && (p.Success? <==> a.Success? && R128TrackGain(a.value.data, a.value.gain, derivedTrackGain).Success?)
            && (a.Failure? ==> p == Failure(a.error))
  {
  }

  /** A well-formed analysis without its own R128 field tags the file with
      the measured gain and peak, the derived track gain and every field. */
  lemma ProcessTagsGoodRun(returnCode: int, stderr: string, decode: string -> Option<LoudnessData>,
                           format: string, derivedTrackGain: int, data: LoudnessData, gain: string, peak: string)
    requires returnCode == 0 && CapturedText(stderr) != "" && decode(CapturedText(stderr)) == Some(data)
    requires Measurement(data, "input_i") == Some(gain) && Measurement(data, "input_tp") == Some(peak)
    requires Lookup(data, "R128_TRACK_GAIN").None? && !IsInfText(gain)
    ensures ProcessResult(returnCode, stderr, decode, format, derivedTrackGain)
         == Success(RemuxCommand(format, TagArgs(GainTags(gain, peak, Some(derivedTrackGain), Some(0), Some(data)))))
  {
  }

  /** Without an R128 field, an infinite gain (loudnorm's `-inf` for
      silence) passes the NaN check, and `int()` of the derived gain raises
      `OverflowError`. */
  lemma ProcessRejectsInfiniteGain(returnCode: int, stderr: string, decode: string -> Option<LoudnessData>,
                                   format: string, derivedTrackGain: int)
    requires AnalysisResult(returnCode, stderr, decode).Success?
    requires Lookup(AnalysisResult(returnCode, stderr, decode).value.data, "R128_TRACK_GAIN").None?
    requires IsInfText(AnalysisResult(returnCode, stderr, decode).value.gain)
    ensures ProcessResult(returnCode, stderr, decode, format, derivedTrackGain) == Failure(GainOverflow)
  {
  }

  /** loudnorm's report for digital silence: both measurements are `-inf`,
      which the NaN check accepts; processing it then fails. */
  lemma SilenceOverflows(format: string, derivedTrackGain: int)
    ensures var data := [("input_i", "-inf"), ("input_tp", "-inf")];
            && Measurement(data, "input_i") == Some("-inf")
            && Measurement(data, "input_tp") == Some("-inf")
            && R128TrackGain(data, "-inf", derivedTrackGain) == Failure(GainOverflow)
  {
    var data := [("input_i", "-inf"), ("input_tp", "-inf")];
    assert Strip("-inf") == "-inf" by { StripTrimmed("-inf"); }
    assert Lower("-inf") == "-inf";
  }

  /** An R128 field `int()` rejects makes the whole run fail with it. */
  lemma ProcessRejectsBadR128(returnCode: int, stderr: string, decode: string -> Option<LoudnessData>,
                              format: string, derivedTrackGain: int, text: string)
    requires AnalysisResult(returnCode, stderr, decode).Success?
    requires Lookup(AnalysisResult(returnCode, stderr, decode).value.data, "R128_TRACK_GAIN") == Some(text)
    requires ParseInt(text).None?
    ensures ProcessResult(returnCode, stderr, decode, format, derivedTrackGain) == Failure(InvalidR128Value(text))
  {
  }

  /** Every field of the analysis reaches the remux command as a
      `-metadata key=value` pair. */
  lemma ProcessKeepsEveryField(a: Analysis, track: int, format: string, i: nat)
    requires i < |a.data|
    ensures var cmd := RemuxCommand(format, TagArgs(ProcessTags(a, track)));
      exists p :: 0 <= p < |cmd| - 1 && cmd[p] == "-metadata" && cmd[p + 1] == TagArg(a.data[i].0, a.data[i].1)
  {
    var tags := ProcessTags(a, track);
    var k := |tags| - |a.data| + i;
    assert tags[k] == a.data[i];
    EveryTagReachesCommand(format, tags, k);
  }

  // ---------------------------------------------------------------------------
  // has_replaygain_metadata
  // ---------------------------------------------------------------------------

  /** The tag keys that signal existing gain data, per container format. */
  function MetadataKeys(format: string): (keys: seq<string>)
    ensures Lower(format) in {"mp3", "flac"} ==> keys == ["replaygain_track_gain", "replaygain_track_peak"]
    ensures Lower(format) == "opus" ==> keys == ["R128_TRACK_GAIN", "R128_ALBUM_GAIN"]
    ensures Lower(format) !in {"mp3", "flac", "opus"} ==> keys == []
  {
    var f := Lower(format);
    if f == "mp3" || f == "flac" then ["replaygain_track_gain", "replaygain_track_peak"]
    else if f == "opus" then ["R128_TRACK_GAIN", "R128_ALBUM_GAIN"]
    else []
  }

  /** `log_replaygain_metadata`: whether any of the keys is among the tags. */
  method AnyKeyPresent(tags: set<string>, keys: seq<string>) returns (found: bool)
    ensures found <==> exists i :: 0 <= i < |keys| && keys[i] in tags
  {
    found := false;
    for i := 0 to |keys|
      invariant found <==> exists k :: 0 <= k < i && keys[k] in tags
    {
      if keys[i] in tags {
        found := true;
      }
    }
  }

  /** `has_replaygain_metadata`; `tags` is what the tag reader returned:
      None when it raised or did not recognise the file. */
  method HasReplayGainMetadata(tags: Option<set<string>>, format: string) returns (found: bool)
    ensures found <==> tags.Some? && exists i :: 0 <= i < |MetadataKeys(format)| && MetadataKeys(format)[i] in tags.value
    ensures Lower(format) !in {"mp3", "flac", "opus"} ==> !found
  {
    if tags.None? {
      return false;
    }
    found := AnyKeyPresent(tags.value, MetadataKeys(format));
  }
}
