/** The helpers of the match endpoints: the name of the processed video,
    and the figures, labels and file name of the generated report. */
module MatchReport {
  import opened Wrappers
  import opened MatchProcessing

  // ---------------------------------------------------------------------------
  // Video names
  // ---------------------------------------------------------------------------

  /** The extensions tried, in order. */
  const VideoExtensions: seq<string> := [".mp4", ".avi", ".mov", ".wmv", ".flv", ".webm", ".mkv"]

  const ProcessedSuffix: string := "_processed.mp4"

  predicate EndsWith(s: string, suffix: string) {
    |suffix| <= |s| && s[|s| - |suffix|..] == suffix
  }

  /** The first extension, from index `i` on, that `name` ends with. */
  function FirstExtensionFrom(name: string, i: nat): (r: Option<nat>)
    requires i <= |VideoExtensions|
    ensures r.Some? ==> i <= r.value < |VideoExtensions| && EndsWith(name, VideoExtensions[r.value])
    ensures r.Some? ==> forall j :: i <= j < r.value ==> !EndsWith(name, VideoExtensions[j])
    ensures r.None? <==> forall j :: i <= j < |VideoExtensions| ==> !EndsWith(name, VideoExtensions[j])
    decreases |VideoExtensions| - i
  {
    if i == |VideoExtensions| then None
    else if EndsWith(name, VideoExtensions[i]) then Some(i)
    else FirstExtensionFrom(name, i + 1)
  }

  function FirstExtension(name: string): Option<nat> {
    FirstExtensionFrom(name, 0)
  }

  /** `s.replace(pattern, '')`: every non-overlapping occurrence of the
      pattern, from the left, removed. */
  function RemoveAll(s: string, pattern: string): (r: string)
    requires |pattern| > 0
    ensures |r| <= |s|
    decreases |s|
  {
    if |s| < |pattern| then s
    else if s[..|pattern|] == pattern then RemoveAll(s[|pattern|..], pattern)
    else [s[0]] + RemoveAll(s[1..], pattern)
  }

  predicate OccursAt(s: string, pattern: string, i: int) {
    0 <= i && i + |pattern| <= |s| && s[i..i + |pattern|] == pattern
  }

  /** Removing a pattern that does not occur leaves the text unchanged. */
  lemma {:induction false} RemoveAbsent(s: string, pattern: string)
    requires |pattern| > 0
    requires forall i :: !OccursAt(s, pattern, i)
    ensures RemoveAll(s, pattern) == s
    decreases |s|
  {
    if |s| >= |pattern| {
      assert !OccursAt(s, pattern, 0);
      assert s[0..|pattern|] == s[..|pattern|];
      forall i ensures !OccursAt(s[1..], pattern, i) {
        assert !OccursAt(s, pattern, i + 1);
      }
      RemoveAbsent(s[1..], pattern);
    }
  }

  /** The name stripping as written: the first extension the name ends
      with is removed wherever it occurs in the name. */
  function StripAsWritten(name: string): string {
    match FirstExtension(name)
    case None => name
    case Some(i) => RemoveAll(name, VideoExtensions[i])
  }

  /** The loop over the extensions with its `break`. */
  method StripVideoExtension(name: string) returns (base: string)
    ensures base == StripAsWritten(name)
    ensures FirstExtension(name).None? ==> base == name
  {
    base := name;
    var i := 0;
    while i < |VideoExtensions|
      invariant 0 <= i <= |VideoExtensions|
      invariant base == name
      invariant FirstExtensionFrom(name, i) == FirstExtension(name)
    {
      if EndsWith(base, VideoExtensions[i]) {
        base := RemoveAll(base, VideoExtensions[i]);
        return;
      }
      i := i + 1;
    }
  }

  /** The stripping evidently intended: only the trailing extension goes. */
  function StripExtension(name: string): (stem: string)
    ensures FirstExtension(name).None? ==> stem == name
    ensures FirstExtension(name).Some? ==> stem + VideoExtensions[FirstExtension(name).value] == name
  {
    match FirstExtension(name)
    case None => name
    case Some(i) => name[..|name| - |VideoExtensions[i]|]
  }

  /** Both strippings agree when the extension occurs nowhere but at the
      end of the name. */
  lemma StrippingsAgreeOnPlainNames(name: string)
    requires FirstExtension(name).Some?
    requires var e := VideoExtensions[FirstExtension(name).value];
             forall i :: i != |name| - |e| ==> !OccursAt(name, e, i)
    ensures StripAsWritten(name) == StripExtension(name)
  {
    var e := VideoExtensions[FirstExtension(name).value];
    var stem := StripExtension(name);
    RemoveTail(stem, e);
  }

  /** `(stem + e).replace(e, '')` is `stem` when `e` occurs only at the end. */
  lemma {:induction false} RemoveTail(stem: string, e: string)
    requires |e| > 0
    requires forall i :: i != |stem| ==> !OccursAt(stem + e, e, i)
    ensures RemoveAll(stem + e, e) == stem
    decreases |stem|
  {
    var s := stem + e;
    if |stem| == 0 {
      assert s == e;
      assert s[..|e|] == e;
      assert s[|e|..] == [];
    } else {
      assert !OccursAt(s, e, 0);
      assert s[0..|e|] == s[..|e|];
      assert s[1..] == stem[1..] + e;
      forall i | i != |stem[1..]| ensures !OccursAt(stem[1..] + e, e, i) {
        if OccursAt(stem[1..] + e, e, i) {
          assert s[i + 1..i + 1 + |e|] == (stem[1..] + e)[i..i + |e|];
          assert OccursAt(s, e, i + 1);
        }
      }
      RemoveTail(stem[1..], e);
      assert s[0] == stem[0];
      assert [stem[0]] + stem[1..] == stem;
    }
  }

  /** A name with the extension inside it loses that inner part too. */
  lemma StripRemovesInnerExtension()
    ensures StripAsWritten("a.mp4b.mp4") == "ab"
    ensures StripExtension("a.mp4b.mp4") == "a.mp4b"
  {
    var name := "a.mp4b.mp4";
    assert EndsWith(name, ".mp4");
    assert FirstExtension(name) == Some(0);
    var e := ".mp4";
    assert name[..4][0] == 'a';
    assert name[1..][..4] == e;
    assert name[1..][4..] == "b.mp4";
    assert "b.mp4"[..4][0] == 'b';
    assert "b.mp4"[1..] == e && e[..4] == e && e[4..] == "";
    calc {
      RemoveAll(name, e);
      [name[0]] + RemoveAll(name[1..], e);
      "a" + RemoveAll("b.mp4", e);
      "a" + ("b" + RemoveAll(e, e));
      "a" + ("b" + RemoveAll("", e));
      "ab";
    }
    assert name[..|name| - 4] == "a.mp4b";
  }

  /** The processed video's file name as written, inside its own
      temporary directory: built on the replace-all stripping. */
  function ProcessedFileNameAsWritten(name: string): (r: string)
    ensures EndsWith(r, ProcessedSuffix)
    ensures r[..|r| - |ProcessedSuffix|] == StripAsWritten(name)
  {
    var stem := StripAsWritten(name);
    var r := stem + ProcessedSuffix;
    assert r[|r| - |ProcessedSuffix|..] == ProcessedSuffix;
    r
  }

  /** The processed video's file name as evidently intended: built on the
      stripping of the trailing extension only. */
  function ProcessedFileName(name: string): (r: string)
    ensures EndsWith(r, ProcessedSuffix)
    ensures r[..|r| - |ProcessedSuffix|] == StripExtension(name)
    ensures FirstExtension(name).Some? ==>
      r[..|r| - |ProcessedSuffix|] + VideoExtensions[FirstExtension(name).value] == name
  {
    var stem := StripExtension(name);
    var r := stem + ProcessedSuffix;
    assert r[|r| - |ProcessedSuffix|..] == ProcessedSuffix;
    assert r[..|r| - |ProcessedSuffix|] == stem;
    r
  }

  /** On a name with the extension inside it the two names differ: the
      source names the output "ab_processed.mp4", not "a.mp4b_processed.mp4". */
  lemma ProcessedNamesDiffer()
    ensures ProcessedFileNameAsWritten("a.mp4b.mp4") == "ab" + ProcessedSuffix
    ensures ProcessedFileName("a.mp4b.mp4") == "a.mp4b" + ProcessedSuffix
  {
    StripRemovesInnerExtension();
    var name := "a.mp4b.mp4";
    assert ProcessedFileNameAsWritten(name) == StripAsWritten(name) + ProcessedSuffix;
    assert ProcessedFileName(name) == StripExtension(name) + ProcessedSuffix;
  }

  // ---------------------------------------------------------------------------
  // Report figures
  // ---------------------------------------------------------------------------

  /** The statistics dictionary posted to the report endpoint: each key
      may be missing, and `otherKeys` counts keys the report never reads. */
  datatype StatsDict = StatsDict(
    totalHits: Option<int>,
    videoDuration: Option<real>,
    fps: Option<real>,
    totalFrames: Option<int>,
    hitsPerPlayer: Option<seq<(string, int)>>,
    filename: Option<string>,
    otherKeys: nat)

  predicate IsEmpty(d: StatsDict) {
    && d.totalHits.None? && d.videoDuration.None? && d.fps.None? && d.totalFrames.None?
    && d.hitsPerPlayer.None? && d.filename.None? && d.otherKeys == 0
  }

  /** `dict.get(key, default)`. */
  function GetOr<T>(o: Option<T>, fallback: T): T {
    if o.Some? then o.value else fallback
  }

  datatype PlayerShare = PlayerShare(player: string, hits: int, percentage: real)

  datatype ReportFigures = ReportFigures(
    durationMinutes: real,
    hitsPerMinute: real,
    intensity: string,
    shares: seq<PlayerShare>,
    activityPercent: real,
    hitsPerFrame: real,
    quality: string,
    reportFilename: string)

  /** The duration in minutes, 0 unless positive. */
  function DurationMinutes(seconds: real): (m: real)
    ensures seconds > 0.0 ==> m * 60.0 == seconds && m > 0.0
    ensures seconds <= 0.0 ==> m == 0.0
  {
    if seconds > 0.0 then seconds / 60.0 else 0.0
  }

  /** Hits per minute, 0 unless the duration is positive. */
  function HitsPerMinute(totalHits: int, minutes: real): (r: real)
    ensures minutes > 0.0 ==> r * minutes == totalHits as real
    ensures minutes <= 0.0 ==> r == 0.0
  {
    if minutes > 0.0 then totalHits as real / minutes else 0.0
  }

  function Intensity(hitsPerMinute: real): string {
    if hitsPerMinute > 30.0 then "Alto" else if hitsPerMinute > 15.0 then "Medio" else "Bajo"
  }

  function Quality(fps: real): string {
    if fps >= 25.0 then "Alta" else if fps >= 15.0 then "Media" else "Baja"
  }

  /** The position of a label on its low-to-high scale. */
  function LabelRank(tag: string): (r: int)
    ensures 0 <= r <= 2
  {
    if tag == "Alto" || tag == "Alta" then 2
    else if tag == "Medio" || tag == "Media" then 1
    else 0
  }

  /** A higher rate or frame rate never earns a lower label, and each label
      is reached exactly above its threshold. */
  lemma LabelsAreMonotone(a: real, b: real)
    requires a <= b
    ensures LabelRank(Intensity(a)) <= LabelRank(Intensity(b))
    ensures LabelRank(Quality(a)) <= LabelRank(Quality(b))
    ensures LabelRank(Intensity(a)) == 2 <==> a > 30.0
    ensures LabelRank(Intensity(a)) >= 1 <==> a > 15.0
    ensures LabelRank(Quality(a)) == 2 <==> a >= 25.0
    ensures LabelRank(Quality(a)) >= 1 <==> a >= 15.0
  {
  }

  /** A player's share of the hits, 0 when there are none. */
  function Percentage(hits: int, totalHits: int): (p: real)
    ensures totalHits > 0 ==> p * totalHits as real == hits as real * 100.0
    ensures totalHits <= 0 ==> p == 0.0
  {
    if totalHits > 0 then hits as real / totalHits as real * 100.0 else 0.0
  }

  function Shares(entries: seq<(string, int)>, totalHits: int): (r: seq<PlayerShare>)
    ensures |r| == |entries|
    ensures forall i :: 0 <= i < |r| ==> r[i] == PlayerShare(entries[i].0, entries[i].1, Percentage(entries[i].1, totalHits))
  {
    seq(|entries|, i requires 0 <= i < |entries| => PlayerShare(entries[i].0, entries[i].1, Percentage(entries[i].1, totalHits)))
  }

  /** The loop over the players that writes one line per player. */
  method PlayerLines(entries: seq<(string, int)>, totalHits: int) returns (lines: seq<PlayerShare>)
    ensures lines == Shares(entries, totalHits)
  {
    lines := [];
    var i := 0;
    while i < |entries|
      invariant 0 <= i <= |entries|
      invariant lines == Shares(entries[..i], totalHits)
    {
      var (player, hits) := entries[i];
      lines := lines + [PlayerShare(player, hits, Percentage(hits, totalHits))];
      i := i + 1;
    }
    assert entries[..i] == entries;
  }

  function PercentSum(shares: seq<PlayerShare>): real {
    if shares == [] then 0.0 else shares[0].percentage + PercentSum(shares[1..])
  }

  /** The shares add up to the players' hits over the total. */
  lemma {:induction false} PercentSumIsShare(entries: seq<(string, int)>, totalHits: int)
    requires totalHits > 0
    ensures PercentSum(Shares(entries, totalHits)) * totalHits as real == CountSum(entries) as real * 100.0
  {
    if entries != [] {
      PercentSumIsShare(entries[1..], totalHits);
      assert Shares(entries, totalHits)[1..] == Shares(entries[1..], totalHits);
      var p := Percentage(entries[0].1, totalHits);
      var rest := PercentSum(Shares(entries[1..], totalHits));
      assert (p + rest) * totalHits as real == p * totalHits as real + rest * totalHits as real;
    }
  }

  /** For the counts the hit counter produces, the shares add up to 100%. */
  lemma SharesAddUpTo100(events: seq<HitEvent>)
    requires |events| > 0
    ensures PercentSum(Shares(Tally([], events), |events|)) == 100.0
  {
    CountsAddUp(events);
    SharesOfFullCount(Tally([], events), |events|);
  }

  /** When the counts add up to the total, the shares add up to 100%. */
  lemma SharesOfFullCount(entries: seq<(string, int)>, totalHits: int)
    requires totalHits > 0 && CountSum(entries) == totalHits
    ensures PercentSum(Shares(entries, totalHits)) == 100.0
  {
    PercentSumIsShare(entries, totalHits);
    CancelPositive(PercentSum(Shares(entries, totalHits)), 100.0, totalHits as real);
  }

  lemma CancelPositive(x: real, y: real, n: real)
    requires n > 0.0 && x * n == y * n
    ensures x == y
  {
    assert (x - y) * n == 0.0;
  }

  /** Spaces and dots become underscores. */
  function Sanitize(s: string): (r: string)
    ensures |r| == |s|
    ensures forall i :: 0 <= i < |s| ==> r[i] == if s[i] == ' ' || s[i] == '.' then '_' else s[i]
  {
    if s == [] then [] else [if s[0] == ' ' || s[0] == '.' then '_' else s[0]] + Sanitize(s[1..])
  }

  /** The report's file name has a fixed prefix and suffix and no space or
      dot in between. */
  function ReportFilename(filename: string): (r: string)
    ensures |r| == |filename| + 17
    ensures r[..14] == "reporte_padel_" && r[|r| - 3..] == ".md"
    ensures r[14..|r| - 3] == Sanitize(filename)
    ensures forall i :: 14 <= i < |r| - 3 ==> r[i] != ' ' && r[i] != '.'
  {
    "reporte_padel_" + Sanitize(filename) + ".md"
  }

  /** The figures of the report, with the frame rates computed by the
      caller. */
  function Figures(d: StatsDict, activityPercent: real, hitsPerFrame: real): ReportFigures {
    var totalHits := GetOr(d.totalHits, 0);
    var minutes := DurationMinutes(GetOr(d.videoDuration, 0.0));
    var perMinute := HitsPerMinute(totalHits, minutes);
    ReportFigures(minutes, perMinute, Intensity(perMinute),
                  Shares(GetOr(d.hitsPerPlayer, []), totalHits),
                  activityPercent, hitsPerFrame,
                  Quality(GetOr(d.fps, 0.0)),
                  ReportFilename(GetOr(d.filename, "partido")))
  }

  /** The report endpoint as written: the 400 for an empty dictionary is
      caught by the handler's own `except Exception` and answered as 500,
      and the frame figures divide by `total_frames` unguarded. */
  function GenerateReportAsWritten(d: StatsDict): Result<ReportFigures, int> {
    var totalHits := GetOr(d.totalHits, 0);
    var frames := GetOr(d.totalFrames, 0);
    if IsEmpty(d) then Err(500)
    else if frames == 0 then Err(500)
    else Ok(Figures(d, totalHits as real / frames as real * 100.0, totalHits as real / frames as real))
  }

  /** The report endpoint as evidently intended: 400 for an empty
      dictionary, and the frame figures guarded like every other rate. */
  function GenerateReport(d: StatsDict): Result<ReportFigures, int> {
    var totalHits := GetOr(d.totalHits, 0);
    var frames := GetOr(d.totalFrames, 0);
    if IsEmpty(d) then Err(400)
    else if frames > 0 then Ok(Figures(d, totalHits as real / frames as real * 100.0, totalHits as real / frames as real))
    else Ok(Figures(d, 0.0, 0.0))
  }

  /** An empty dictionary is answered 500 as written. */
  lemma EmptyStatsAnswer500()
    ensures GenerateReportAsWritten(StatsDict(None, None, None, None, None, None, 0)) == Err(500)
  {
  }

  /** A dictionary without `total_frames` is answered 500 as written. */
  lemma MissingFramesAnswer500()
    ensures GenerateReportAsWritten(StatsDict(Some(12), Some(120.0), Some(30.0), None, None, None, 0)) == Err(500)
  {
  }

  /** The intended endpoint refuses exactly the empty dictionary, with a
      400, and otherwise reports figures whose frame rates are 0 without
      frames; where the written one answers, both agree. */
  lemma ReportAnswersEveryDictionary(d: StatsDict)
    ensures GenerateReport(d) == Err(400) <==> IsEmpty(d)
    ensures GenerateReport(d).Ok? <==> !IsEmpty(d)
    ensures GenerateReport(d).Ok? && GetOr(d.totalFrames, 0) <= 0 ==>
              GenerateReport(d).value.activityPercent == 0.0 && GenerateReport(d).value.hitsPerFrame == 0.0
    ensures GenerateReport(d).Ok? ==> GenerateReport(d).value.reportFilename == ReportFilename(GetOr(d.filename, "partido"))
    ensures GenerateReportAsWritten(d).Ok? && GetOr(d.totalFrames, 0) > 0 ==> GenerateReportAsWritten(d) == GenerateReport(d)
  {
  }
}
