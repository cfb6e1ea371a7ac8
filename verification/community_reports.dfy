/**
 * The community reports page: the icon chosen for a report category, the
 * newest-first ordering of loaded reports, and the prepending of a report
 * just submitted.
 */
module CommunityReports {
  import opened Wrappers
  import opened Strings
  import opened Classifiers
  import opened Geo

  /** A user report; `timestamp` is the report time in milliseconds. */
  datatype UserReport = UserReport(
    id: string,
    photoDataUri: string,
    description: string,
    location: Option<Coordinates>,
    category: string,
    summary: string,
    timestamp: int,
    user: string,
    photoUrl: Option<string>,
    photoHint: Option<string>)

  datatype CategoryIcon = Waves | Flame | Siren | Car | AlertTriangle | Tag

  // ----- category icon -----

  /**
   * `getIcon(category)`: the component's chain of checks on the lower-cased
   * category, i.e. the icon of the first rule with a keyword in it.
   */
  function IconFor(category: string): (i: CategoryIcon)
    ensures i == Classify(Rules, ToLower(category), Tag)
  {
    LowerIcon(ToLower(category))
  }

  /**
   * The chain of checks on an already lower-cased category: the first
   * rule of `Rules` with a keyword in `c` decides, `Tag` otherwise.
   */
  function LowerIcon(c: string): (i: CategoryIcon)
    ensures i == Classify(Rules, c, Tag)
  {
    PairMatches(c, "banjir", "flood");
    PairMatches(c, "kebakaran", "fire");
    PairMatches(c, "pohon", "tree");
    PairMatches(c, "lalu lintas", "traffic");
    PairMatches(c, "jalan rusak", "road damage");
    if Contains(c, "banjir") || Contains(c, "flood") then ClassifyAt(Rules, c, Tag, 0); Waves
    else if Contains(c, "kebakaran") || Contains(c, "fire") then ClassifyAt(Rules, c, Tag, 1); Flame
    else if Contains(c, "pohon") || Contains(c, "tree") then ClassifyAt(Rules, c, Tag, 2); Siren
    else if Contains(c, "lalu lintas") || Contains(c, "traffic") then ClassifyAt(Rules, c, Tag, 3); Car
    else if Contains(c, "jalan rusak") || Contains(c, "road damage") then ClassifyAt(Rules, c, Tag, 4); AlertTriangle
    else ClassifyDefault(Rules, c, Tag); Tag
  }

  /** The checks as an ordered rule table, Indonesian keyword first, with `Tag` as the default. */
  const Rules: seq<Rule<CategoryIcon>> := [
    Rule(["banjir", "flood"], Waves),
    Rule(["kebakaran", "fire"], Flame),
    Rule(["pohon", "tree"], Siren),
    Rule(["lalu lintas", "traffic"], Car),
    Rule(["jalan rusak", "road damage"], AlertTriangle)
  ]

  /** Lower-casing the category first makes no difference. */
  lemma IconForCaseInsensitive(category: string)
    ensures IconFor(ToLower(category)) == IconFor(category)
  {
    ToLowerIdempotent(category);
  }

  /** A flood category wins over every later keyword, `"fire"` included. */
  lemma FloodWins(category: string)
    requires Contains(ToLower(category), "flood") || Contains(ToLower(category), "banjir")
    ensures IconFor(category) == Waves
    ensures IconFor(category + " fire") == Waves
  {
    var c := ToLower(category);
    var d := ToLower(category + " fire");
    assert d[..|c|] == c;
    if Contains(c, "flood") {
      ContainsTransitive(d, c, "flood") by { PrefixContained(c, d); }
    } else {
      ContainsTransitive(d, c, "banjir") by { PrefixContained(c, d); }
    }
  }

  // Category names. The categorising flow's examples are Banjir, Pohon
  // Tumbang, Kecelakaan Lalu Lintas, Jalan Rusak and Lainnya; Kebakaran and
  // the English names (the flow answers in English when asked to) are names
  // of this model's choosing, one per keyword group. Each literal fact gets
  // its own small lemma so that no single proof has to search many texts.

  lemma BanjirText()
    ensures Contains("banjir", "banjir")
  {
    MatchContains("banjir", "banjir", 0);
  }

  lemma BanjirIcon()
    ensures IconFor("Banjir") == Waves
  {
    assert ToLower("Banjir") == "banjir";
    BanjirText();
  }

  lemma FloodText()
    ensures !Contains("flood", "banjir")
    ensures Contains("flood", "flood")
  {
    MissingCharNotContains("flood", "banjir", 'b');
    MatchContains("flood", "flood", 0);
  }

  lemma FloodIcon()
    ensures IconFor("Flood") == Waves
  {
    assert ToLower("Flood") == "flood";
    FloodText();
  }

  lemma KebakaranText()
    ensures !Contains("kebakaran", "banjir")
    ensures !Contains("kebakaran", "flood")
    ensures Contains("kebakaran", "kebakaran")
  {
    MissingCharNotContains("kebakaran", "banjir", 'j');
    MissingCharNotContains("kebakaran", "flood", 'f');
    MatchContains("kebakaran", "kebakaran", 0);
  }

  lemma KebakaranIcon()
    ensures IconFor("Kebakaran") == Flame
  {
    assert ToLower("Kebakaran") == "kebakaran";
    KebakaranText();
  }

  lemma FireText()
    ensures !Contains("fire", "banjir")
    ensures !Contains("fire", "flood")
    ensures !Contains("fire", "kebakaran")
    ensures Contains("fire", "fire")
  {
    MissingCharNotContains("fire", "banjir", 'b');
    MissingCharNotContains("fire", "flood", 'l');
    MissingCharNotContains("fire", "kebakaran", 'k');
    MatchContains("fire", "fire", 0);
  }

  lemma FireIcon()
    ensures IconFor("Fire") == Flame
  {
    assert ToLower("Fire") == "fire";
    FireText();
  }

  lemma PohonTumbangText()
    ensures !Contains("pohon tumbang", "banjir")
    ensures !Contains("pohon tumbang", "flood")
    ensures !Contains("pohon tumbang", "kebakaran")
    ensures !Contains("pohon tumbang", "fire")
    ensures Contains("pohon tumbang", "pohon")
  {
    MissingCharNotContains("pohon tumbang", "banjir", 'j');
    MissingCharNotContains("pohon tumbang", "flood", 'f');
    MissingCharNotContains("pohon tumbang", "kebakaran", 'k');
    MissingCharNotContains("pohon tumbang", "fire", 'f');
    MatchContains("pohon tumbang", "pohon", 0);
  }

  lemma PohonTumbangIcon()
    ensures IconFor("Pohon Tumbang") == Siren
  {
    assert ToLower("Pohon Tumbang") == "pohon tumbang";
    PohonTumbangText();
  }

  lemma FallenTreeText1()
    ensures !Contains("fallen tree", "banjir")
    ensures !Contains("fallen tree", "flood")
    ensures !Contains("fallen tree", "kebakaran")
    ensures !Contains("fallen tree", "fire")
  {
    MissingCharNotContains("fallen tree", "banjir", 'b');
    MissingCharNotContains("fallen tree", "flood", 'o');
    MissingCharNotContains("fallen tree", "kebakaran", 'k');
    MissingCharNotContains("fallen tree", "fire", 'i');
  }

  lemma FallenTreeText2()
    ensures !Contains("fallen tree", "pohon")
    ensures Contains("fallen tree", "tree")
  {
    MissingCharNotContains("fallen tree", "pohon", 'p');
    MatchContains("fallen tree", "tree", 7);
  }

  lemma FallenTreeIcon()
    ensures IconFor("Fallen Tree") == Siren
  {
    assert ToLower("Fallen Tree") == "fallen tree";
    FallenTreeText1();
    FallenTreeText2();
  }

  lemma LaluLintasText1()
    ensures !Contains("kecelakaan lalu lintas", "banjir")
    ensures !Contains("kecelakaan lalu lintas", "flood")
    ensures !Contains("kecelakaan lalu lintas", "kebakaran")
    ensures !Contains("kecelakaan lalu lintas", "fire")
  {
    MissingCharNotContains("kecelakaan lalu lintas", "banjir", 'j');
    MissingCharNotContains("kecelakaan lalu lintas", "flood", 'f');
    MissingCharNotContains("kecelakaan lalu lintas", "kebakaran", 'b');
    MissingCharNotContains("kecelakaan lalu lintas", "fire", 'f');
  }

  lemma LaluLintasText2()
    ensures !Contains("kecelakaan lalu lintas", "pohon")
    ensures !Contains("kecelakaan lalu lintas", "tree")
    ensures Contains("kecelakaan lalu lintas", "lalu lintas")
  {
    MissingCharNotContains("kecelakaan lalu lintas", "pohon", 'p');
    MissingCharNotContains("kecelakaan lalu lintas", "tree", 'r');
    MatchContains("kecelakaan lalu lintas", "lalu lintas", 11);
  }

  lemma LaluLintasIcon()
    ensures IconFor("Kecelakaan Lalu Lintas") == Car
  {
    assert ToLower("Kecelakaan Lalu Lintas") == "kecelakaan lalu lintas";
    LaluLintasText1();
    LaluLintasText2();
  }

  lemma TrafficAccidentText1()
    ensures !Contains("traffic accident", "banjir")
    ensures !Contains("traffic accident", "flood")
    ensures !Contains("traffic accident", "kebakaran")
    ensures !Contains("traffic accident", "fire")
  {
    MissingCharNotContains("traffic accident", "banjir", 'b');
    MissingCharNotContains("traffic accident", "flood", 'l');
    MissingCharNotContains("traffic accident", "kebakaran", 'k');
    MissingPairNotContains("traffic accident", "fire", 1);
  }

  lemma TrafficAccidentText2()
    ensures !Contains("traffic accident", "pohon")
    ensures !Contains("traffic accident", "tree")
    ensures !Contains("traffic accident", "lalu lintas")
    ensures Contains("traffic accident", "traffic")
  {
    MissingCharNotContains("traffic accident", "pohon", 'p');
    MissingPairNotContains("traffic accident", "tree", 1);
    MissingCharNotContains("traffic accident", "lalu lintas", 'l');
    MatchContains("traffic accident", "traffic", 0);
  }

  lemma TrafficAccidentIcon()
    ensures IconFor("Traffic Accident") == Car
  {
    assert ToLower("Traffic Accident") == "traffic accident";
    TrafficAccidentText1();
    TrafficAccidentText2();
  }

  lemma JalanRusakText1()
    ensures !Contains("jalan rusak", "banjir")
    ensures !Contains("jalan rusak", "flood")
    ensures !Contains("jalan rusak", "kebakaran")
    ensures !Contains("jalan rusak", "fire")
  {
    MissingCharNotContains("jalan rusak", "banjir", 'b');
    MissingCharNotContains("jalan rusak", "flood", 'f');
    MissingCharNotContains("jalan rusak", "kebakaran", 'b');
    MissingCharNotContains("jalan rusak", "fire", 'f');
  }

  lemma JalanRusakText2()
    ensures !Contains("jalan rusak", "pohon")
    ensures !Contains("jalan rusak", "tree")
    ensures !Contains("jalan rusak", "lalu lintas")
    ensures !Contains("jalan rusak", "traffic")
    ensures Contains("jalan rusak", "jalan rusak")
  {
    MissingCharNotContains("jalan rusak", "pohon", 'p');
    MissingCharNotContains("jalan rusak", "tree", 't');
    MissingCharNotContains("jalan rusak", "lalu lintas", 'i');
    MissingCharNotContains("jalan rusak", "traffic", 't');
    MatchContains("jalan rusak", "jalan rusak", 0);
  }

  lemma JalanRusakIcon()
    ensures IconFor("Jalan Rusak") == AlertTriangle
  {
    assert ToLower("Jalan Rusak") == "jalan rusak";
    JalanRusakText1();
    JalanRusakText2();
  }

  lemma RoadDamageText1()
    ensures !Contains("road damage", "banjir")
    ensures !Contains("road damage", "flood")
    ensures !Contains("road damage", "kebakaran")
    ensures !Contains("road damage", "fire")
  {
    MissingCharNotContains("road damage", "banjir", 'b');
    MissingCharNotContains("road damage", "flood", 'f');
    MissingCharNotContains("road damage", "kebakaran", 'k');
    MissingCharNotContains("road damage", "fire", 'f');
  }

  lemma RoadDamageText2()
    ensures !Contains("road damage", "pohon")
    ensures !Contains("road damage", "tree")
    ensures !Contains("road damage", "lalu lintas")
    ensures !Contains("road damage", "traffic")
  {
    MissingCharNotContains("road damage", "pohon", 'p');
    MissingCharNotContains("road damage", "tree", 't');
    MissingCharNotContains("road damage", "lalu lintas", 'l');
    MissingCharNotContains("road damage", "traffic", 't');
  }

  lemma RoadDamageText3()
    ensures !Contains("road damage", "jalan rusak")
    ensures Contains("road damage", "road damage")
  {
    MissingCharNotContains("road damage", "jalan rusak", 'j');
    MatchContains("road damage", "road damage", 0);
  }

  lemma RoadDamageIcon()
    ensures IconFor("Road Damage") == AlertTriangle
  {
    assert ToLower("Road Damage") == "road damage";
    RoadDamageText1();
    RoadDamageText2();
    RoadDamageText3();
  }

  lemma LainnyaText1()
    ensures !Contains("lainnya", "banjir")
    ensures !Contains("lainnya", "flood")
    ensures !Contains("lainnya", "kebakaran")
    ensures !Contains("lainnya", "fire")
  {
    MissingCharNotContains("lainnya", "banjir", 'b');
    MissingCharNotContains("lainnya", "flood", 'f');
    MissingCharNotContains("lainnya", "kebakaran", 'k');
    MissingCharNotContains("lainnya", "fire", 'f');
  }

  lemma LainnyaText2()
    ensures !Contains("lainnya", "pohon")
    ensures !Contains("lainnya", "tree")
    ensures !Contains("lainnya", "lalu lintas")
    ensures !Contains("lainnya", "traffic")
  {
    MissingCharNotContains("lainnya", "pohon", 'p');
    MissingCharNotContains("lainnya", "tree", 't');
    MissingCharNotContains("lainnya", "lalu lintas", 't');
    MissingCharNotContains("lainnya", "traffic", 't');
  }

  lemma LainnyaText3()
    ensures !Contains("lainnya", "jalan rusak")
    ensures !Contains("lainnya", "road damage")
  {
    MissingCharNotContains("lainnya", "jalan rusak", 'j');
    MissingCharNotContains("lainnya", "road damage", 'r');
  }

  lemma LainnyaIcon()
    ensures IconFor("Lainnya") == Tag
  {
    assert ToLower("Lainnya") == "lainnya";
    LainnyaText1();
    LainnyaText2();
    LainnyaText3();
  }

  lemma OtherText1()
    ensures !Contains("other", "banjir")
    ensures !Contains("other", "flood")
    ensures !Contains("other", "kebakaran")
    ensures !Contains("other", "fire")
  {
    MissingCharNotContains("other", "banjir", 'b');
    MissingCharNotContains("other", "flood", 'f');
    MissingCharNotContains("other", "kebakaran", 'k');
    MissingCharNotContains("other", "fire", 'f');
  }

  lemma OtherText2()
    ensures !Contains("other", "pohon")
    ensures !Contains("other", "tree")
    ensures !Contains("other", "lalu lintas")
    ensures !Contains("other", "traffic")
  {
    MissingCharNotContains("other", "pohon", 'p');
    MissingPairNotContains("other", "tree", 0);
    MissingCharNotContains("other", "lalu lintas", 'l');
    MissingCharNotContains("other", "traffic", 'f');
  }

  lemma OtherText3()
    ensures !Contains("other", "jalan rusak")
    ensures !Contains("other", "road damage")
  {
    MissingCharNotContains("other", "jalan rusak", 'j');
    MissingCharNotContains("other", "road damage", 'a');
  }

  lemma OtherIcon()
    ensures IconFor("Other") == Tag
  {
    assert ToLower("Other") == "other";
    OtherText1();
    OtherText2();
    OtherText3();
  }

  /**
   * The flow's example categories get their intended icons (Lainnya the
   * default), and so do Kebakaran and an English name for each group.
   */
  lemma CategoryNameIcons()
    ensures IconFor("Banjir") == Waves && IconFor("Flood") == Waves
    ensures IconFor("Kebakaran") == Flame && IconFor("Fire") == Flame
    ensures IconFor("Pohon Tumbang") == Siren && IconFor("Fallen Tree") == Siren
    ensures IconFor("Kecelakaan Lalu Lintas") == Car && IconFor("Traffic Accident") == Car
    ensures IconFor("Jalan Rusak") == AlertTriangle && IconFor("Road Damage") == AlertTriangle
    ensures IconFor("Lainnya") == Tag && IconFor("Other") == Tag
  {
    BanjirIcon(); FloodIcon();
    KebakaranIcon(); FireIcon();
    PohonTumbangIcon(); FallenTreeIcon();
    LaluLintasIcon(); TrafficAccidentIcon();
    JalanRusakIcon(); RoadDamageIcon();
    LainnyaIcon(); OtherIcon();
  }

  // ----- ordering -----

  /** Newest first: timestamps never increase along the list. */
  predicate NewestFirst(reports: seq<UserReport>) {
    forall i, j :: 0 <= i < j < |reports| ==> reports[i].timestamp >= reports[j].timestamp
  }

  /** Places `r` before the first report that is not newer than it. */
  function Insert(r: UserReport, sorted: seq<UserReport>): (out: seq<UserReport>)
    requires NewestFirst(sorted)
    ensures NewestFirst(out)
    ensures multiset(out) == multiset(sorted) + multiset{r}
    ensures |out| == |sorted| + 1
    ensures out[0] == r || (|sorted| > 0 && out[0] == sorted[0])
    decreases |sorted|
  {
    if |sorted| == 0 || sorted[0].timestamp <= r.timestamp then
      ConsNewestFirst(r, sorted);
      [r] + sorted
    else
      var rest := Insert(r, sorted[1..]);
      assert sorted == [sorted[0]] + sorted[1..];
      ConsNewestFirst(sorted[0], rest);
      [sorted[0]] + rest
  }

  /** A report no older than the head of a newest-first list can go in front of it. */
  lemma ConsNewestFirst(h: UserReport, rest: seq<UserReport>)
    requires NewestFirst(rest)
    requires |rest| > 0 ==> rest[0].timestamp <= h.timestamp
    ensures NewestFirst([h] + rest)
  {
    var out := [h] + rest;
    forall i, j | 0 <= i < j < |out|
      ensures out[i].timestamp >= out[j].timestamp
    {
      if i == 0 && j > 1 {
        assert out[j] == rest[j - 1] && rest[0].timestamp >= rest[j - 1].timestamp;
      }
    }
  }

  /**
   * `data.sort((a, b) => time(b) - time(a))`: the loaded reports, newest
   * first; the same reports, each as often as before.
   */
  function SortNewestFirst(reports: seq<UserReport>): (out: seq<UserReport>)
    ensures NewestFirst(out)
    ensures multiset(out) == multiset(reports)
    decreases |reports|
  {
    if |reports| == 0 then []
    else
      assert reports == [reports[0]] + reports[1..];
      Insert(reports[0], SortNewestFirst(reports[1..]))
  }

  /** A list already newest first is left as it is. */
  lemma {:induction false} SortKeepsSorted(reports: seq<UserReport>)
    requires NewestFirst(reports)
    ensures SortNewestFirst(reports) == reports
    decreases |reports|
  {
    if |reports| > 0 {
      SortKeepsSorted(reports[1..]);
      assert reports == [reports[0]] + reports[1..];
    }
  }

  // ----- the page -----

  /** The page's state: the shown reports, the loading flag, the dialog's open flag. */
  datatype Page = Page(reports: seq<UserReport>, isLoading: bool, dialogOpen: bool)

  /** What the page shows. */
  datatype View = Skeletons | Cards(cards: seq<UserReport>) | NoReports

  const InitialPage: Page := Page([], true, false)

  /** The reports arrived: shown newest first, loading over. */
  function ReportsLoaded(p: Page, data: seq<UserReport>): (r: Page)
    ensures !r.isLoading && r.dialogOpen == p.dialogOpen
    ensures NewestFirst(r.reports) && multiset(r.reports) == multiset(data)
  {
    p.(reports := SortNewestFirst(data), isLoading := false)
  }

  /** `handleReportSubmitted`: the new report goes on top, the rest keep their order. */
  function ReportSubmitted(p: Page, report: UserReport): (r: Page)
    ensures |r.reports| == |p.reports| + 1
    ensures r.reports[0] == report && r.reports[1..] == p.reports
    ensures r.isLoading == p.isLoading && r.dialogOpen == p.dialogOpen
  {
    p.(reports := [report] + p.reports)
  }

  /** A report at least as new as every shown one keeps the list newest first. */
  lemma SubmittedNewestStaysSorted(p: Page, report: UserReport)
    requires NewestFirst(p.reports)
    requires forall i :: 0 <= i < |p.reports| ==> p.reports[i].timestamp <= report.timestamp
    ensures NewestFirst(ReportSubmitted(p, report).reports)
  {
    var r := ReportSubmitted(p, report).reports;
    forall i, j | 0 <= i < j < |r|
      ensures r[i].timestamp >= r[j].timestamp
    {
      if i > 0 {
        assert r[i] == p.reports[i - 1] && r[j] == p.reports[j - 1];
      }
    }
  }

  /** Skeletons while loading, then the cards, or the empty message when there are none. */
  function ViewOf(p: Page): (v: View)
    ensures p.isLoading <==> v.Skeletons?
    ensures v.Cards? <==> !p.isLoading && |p.reports| > 0
    ensures v.Cards? ==> v.cards == p.reports
  {
    if p.isLoading then Skeletons
    else if |p.reports| > 0 then Cards(p.reports)
    else NoReports
  }

  /** Once loaded, a submitted report is always on show, first. */
  lemma SubmittedReportShown(p: Page, report: UserReport)
    requires !p.isLoading
    ensures ViewOf(ReportSubmitted(p, report)).Cards?
    ensures ViewOf(ReportSubmitted(p, report)).cards[0] == report
  {
  }
}
