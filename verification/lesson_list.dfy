/**
 * The lesson cards of the lesson list: the short title cut from a lesson's
 * name, the study time in minutes, the status drawn from the learner's
 * progress, the level badge and the lesson number shown.
 */
module LessonList {
  import opened Wrappers
  import opened Text

  const DEFAULT_TITLE: string := "Bài học"

  /** The index of the last `c` in `s`, or -1 (`lastIndexOf`). */
  function LastIndexOf(s: string, c: char): (r: int)
    ensures -1 <= r < |s|
    ensures r >= 0 ==> s[r] == c
    ensures forall k :: r < k < |s| ==> s[k] != c
  {
    LastBefore(s, c, |s|)
  }

  /** The index of the last `c` among the first `n` characters, or -1. */
  function LastBefore(s: string, c: char, n: nat): (r: int)
    requires n <= |s|
    ensures -1 <= r < n
    ensures r >= 0 ==> s[r] == c
    ensures forall k :: r < k < n ==> s[k] != c
  {
    if n == 0 then -1 else if s[n - 1] == c then n - 1 else LastBefore(s, c, n - 1)
  }

  /** A character that separates a lesson's prefix from its title. */
  predicate IsSeparator(c: char) {
    c == ':' || c == '-'
  }

  /** The part of a name after its last separator, or the whole name. */
  function AfterLastSeparator(s: string): (rest: string)
    ensures forall k :: 0 <= k < |rest| ==> !IsSeparator(rest[k])
    ensures (forall k :: 0 <= k < |s| ==> !IsSeparator(s[k])) ==> rest == s
  {
    var lastColon := LastIndexOf(s, ':');
    var lastDash := LastIndexOf(s, '-');
    var index := if lastColon >= lastDash then lastColon else lastDash;
    if index >= 0 then s[index + 1..] else s
  }

  /**
   * `formatLessonTitle`: a missing or empty name gives "Bài học"; otherwise
   * the trimmed text after the last ':' or '-', or the whole trimmed name
   * when it has neither.
   */
  function FormatLessonTitle(name: Option<string>): (title: string)
    ensures name.None? || name.value == "" ==> title == DEFAULT_TITLE
    ensures name.Some? && name.value != "" ==> forall k :: 0 <= k < |title| ==> !IsSeparator(title[k])
    ensures name.Some? && name.value != "" && (forall k :: 0 <= k < |name.value| ==> !IsSeparator(name.value[k])) ==>
      title == JsTrim(name.value)
  {
    if name.None? || name.value == "" then DEFAULT_TITLE
    else
      var rest := AfterLastSeparator(name.value);
      TrimKeepsOut(rest);
      JsTrim(rest)
  }

  /** Trimming only removes characters, so it adds no separator. */
  lemma TrimKeepsOut(s: string)
    ensures (forall k :: 0 <= k < |s| ==> !IsSeparator(s[k])) ==>
      forall k :: 0 <= k < |JsTrim(s)| ==> !IsSeparator(JsTrim(s)[k])
  {
    var r := JsTrim(s);
    var k := |s| - |DropStart(s, IsJsWhitespace)|;
    StripSlice(s, IsJsWhitespace);
    if forall i :: 0 <= i < |s| ==> !IsSeparator(s[i]) {
      forall i | 0 <= i < |r| ensures !IsSeparator(r[i]) {
        assert r[i] == s[k..k + |r|][i];
      }
    }
  }

  /** A name "prefix: title" or "prefix - title" is shown as its trimmed title part. */
  lemma TitleAfterSeparator(prefix: string, separator: char, title: string)
    requires IsSeparator(separator)
    requires forall k :: 0 <= k < |title| ==> !IsSeparator(title[k])
    ensures AfterLastSeparator(prefix + [separator] + title) == title
    ensures FormatLessonTitle(Some(prefix + [separator] + title)) == JsTrim(title)
  {
    var s := prefix + [separator] + title;
    var p := |prefix|;
    assert s[p] == separator;
    assert forall k :: p < k < |s| ==> s[k] == title[k - p - 1];
    assert s[p + 1..] == title;
  }

  // ---------------------------------------------------------------------------
  // Study time
  // ---------------------------------------------------------------------------

  /** JavaScript `Math.round(seconds / 60)` for a whole number of seconds. */
  function RoundMinutes(seconds: int): int {
    (seconds + 30) / 60
  }

  /**
   * `formatDuration`: no text for a missing, zero or negative time;
   * otherwise the time in minutes rounded to the nearest, at least 1.
   */
  function FormatDuration(seconds: Option<int>): (minutes: Option<int>)
    ensures minutes.None? <==> seconds.None? || seconds.value <= 0
    ensures minutes.Some? ==> minutes.value >= 1
    ensures minutes.Some? && seconds.value >= 30 ==>
      60 * minutes.value - 30 <= seconds.value < 60 * minutes.value + 30
    ensures minutes.Some? && seconds.value < 90 ==> minutes.value == 1
  {
    if seconds.None? || seconds.value <= 0 then None
    else
      var rounded := RoundMinutes(seconds.value);
      Some(if rounded >= 1 then rounded else 1)
  }

  /** More time studied never shows fewer minutes. */
  lemma FormatDurationMonotone(a: int, b: int)
    requires 0 < a <= b
    ensures FormatDuration(Some(a)).value <= FormatDuration(Some(b)).value
  {
  }

  /** The duration text, "N phút". */
  function MinutesText(minutes: int): string {
    FormatInt(minutes) + " phút"
  }

  // ---------------------------------------------------------------------------
  // Status
  // ---------------------------------------------------------------------------

  /** The learner's stored progress on one lesson, as the page receives it. */
  datatype LessonProgressView = LessonProgressView(isCompleted: bool, timeSpentSeconds: Option<int>, completedAt: Option<string>)

  datatype StatusKind = NotStarted | Done | Studying

  datatype LessonStatus = LessonStatus(kind: StatusKind, caption: string, action: string, timeText: string, estimatedTime: string)

  /** The text shown when no duration is known. */
  const DEFAULT_ESTIMATE: string := "30 phút"

  /** The duration text of a time, or the 30-minute default. */
  function EstimatedTime(seconds: Option<int>): (t: string)
    ensures FormatDuration(seconds).None? ==> t == DEFAULT_ESTIMATE
    ensures FormatDuration(seconds).Some? ==> t == MinutesText(FormatDuration(seconds).value)
  {
    match FormatDuration(seconds)
    case Some(m) => MinutesText(m)
    case None => DEFAULT_ESTIMATE
  }

  /**
   * `buildStatus`: no progress is "not started", completed progress is
   * "done", anything else is "studying". `formatDate` renders a stored
   * moment in the page's locale, or fails.
   */
  function BuildStatus(progress: Option<LessonProgressView>, formatDate: Option<string> -> Option<string>): (s: LessonStatus)
    ensures progress.None? <==> s.kind == NotStarted
    ensures progress.Some? && progress.value.isCompleted <==> s.kind == Done
    ensures progress.Some? && !progress.value.isCompleted <==> s.kind == Studying
    ensures s.kind == NotStarted ==> s.estimatedTime == DEFAULT_ESTIMATE
    ensures s.kind != NotStarted ==> s.estimatedTime == EstimatedTime(progress.value.timeSpentSeconds)
    ensures s.kind == Studying ==>
      s.timeText == "Đã học " + MinutesText(FormatDuration(progress.value.timeSpentSeconds).GetOr(1))
  {
    match progress
    case None =>
      LessonStatus(NotStarted, "Chưa học", "Bắt đầu học", "Chưa có tiến độ", DEFAULT_ESTIMATE)
    case Some(p) =>
      if p.isCompleted then
        var timeText := match formatDate(p.completedAt)
          case Some(date) => "Hoàn thành ngày " + date
          case None => "Đã hoàn thành";
        LessonStatus(Done, "Đã học", "Học lại từ đầu", timeText, EstimatedTime(p.timeSpentSeconds))
      else
        var timeText := match FormatDuration(p.timeSpentSeconds)
          case Some(m) => "Đã học " + MinutesText(m)
          case None => "Đã học 1 phút";
        LessonStatus(Studying, "Đang học", "Tiếp tục học", timeText, EstimatedTime(p.timeSpentSeconds))
  }

  // ---------------------------------------------------------------------------
  // Level badge and number
  // ---------------------------------------------------------------------------

  datatype LevelBadge = Easy | Medium | Hard

  /** The configured badge of a level, if the level is configured. */
  function LevelConfig(level: Option<int>): (b: Option<LevelBadge>)
    ensures b.Some? <==> level.Some? && 1 <= level.value <= 3
  {
    if level == Some(1) then Some(Easy)
    else if level == Some(2) then Some(Medium)
    else if level == Some(3) then Some(Hard)
    else None
  }

  /** The badge of the lesson cards: an unknown level shows as level 1. */
  function CardLevel(level: Option<int>): (b: LevelBadge)
    ensures LevelConfig(level).None? ==> b == Easy
    ensures LevelConfig(level).Some? ==> b == LevelConfig(level).value
  {
    LevelConfig(level).GetOr(Easy)
  }

  /** The badge of the older list variant: an unknown level shows as level 3. */
  function LegacyCardLevel(level: Option<int>): (b: LevelBadge)
    ensures LevelConfig(level).None? ==> b == Hard
    ensures LevelConfig(level).Some? ==> b == LevelConfig(level).value
  {
    LevelConfig(level).GetOr(Hard)
  }

  /** The two variants agree exactly on the configured levels. */
  lemma LevelVariantsAgree(level: Option<int>)
    ensures CardLevel(level) == LegacyCardLevel(level) <==> level.Some? && 1 <= level.value <= 3
  {
  }

  /** `lessonNumber ?? index + 1`: only a missing number falls back; 0 is kept. */
  function ShownLessonNumber(lessonNumber: Option<int>, index: nat): (n: int)
    ensures lessonNumber.Some? ==> n == lessonNumber.value
    ensures lessonNumber.None? ==> n == index + 1
  {
    lessonNumber.GetOr(index + 1)
  }

  // ---------------------------------------------------------------------------
  // The cards
  // ---------------------------------------------------------------------------

  datatype LessonSummary = LessonSummary(id: int, name: Option<string>, level: Option<int>, lessonNumber: Option<int>)

  datatype LessonCard = LessonCard(lessonId: int, number: int, level: LevelBadge, title: string, status: LessonStatus)

  /**
   * The list: nothing for no lessons; otherwise one card per lesson, in
   * order, each with its own progress.
   */
  function LessonCards(lessons: seq<LessonSummary>, progressByLesson: map<int, LessonProgressView>,
                       formatDate: Option<string> -> Option<string>): (cards: Option<seq<LessonCard>>)
    ensures cards.None? <==> |lessons| == 0
    ensures cards.Some? ==> |cards.value| == |lessons|
    ensures cards.Some? ==> forall i :: 0 <= i < |lessons| ==>
      var l := lessons[i];
      var progress := if l.id in progressByLesson then Some(progressByLesson[l.id]) else None;
      cards.value[i] == LessonCard(l.id, ShownLessonNumber(l.lessonNumber, i), CardLevel(l.level),
                                   FormatLessonTitle(l.name), BuildStatus(progress, formatDate))
  {
    if |lessons| == 0 then None
    else Some(seq(|lessons|, i requires 0 <= i < |lessons| =>
      var l := lessons[i];
      var progress := if l.id in progressByLesson then Some(progressByLesson[l.id]) else None;
      LessonCard(l.id, ShownLessonNumber(l.lessonNumber, i), CardLevel(l.level),
                 FormatLessonTitle(l.name), BuildStatus(progress, formatDate))))
  }
}
