/** The chat-log export of `export_logs.py`: the priority classifier for one
    message, the scan of the chat log files into categorised rows and
    per-category message lists, and the summary step over those lists. File
    reading, JSON decoding and the Excel writer are outside the model: a log
    file arrives already decoded (`LogFile`), and the summariser's answers
    are inputs. */
module ExportLogs {
  import opened PyStr
  import AiModel

  /** The four labels `categorize_message` returns. */
  datatype Category = Roadshow | Appointment | Opinion | Other {
    function Label(): (s: string)
      ensures s != []
    {
      match this
      case Roadshow => "路演信息"
      case Appointment => "调研预约"
      case Opinion => "观点与讨论"
      case Other => "其他"
    }

    /** Position in the test order of `categorize_message`. */
    function Priority(): (n: nat)
      ensures n < 4
    {
      match this
      case Roadshow => 0
      case Appointment => 1
      case Opinion => 2
      case Other => 3
    }
  }

  /** The labels tell the categories apart. */
  lemma LabelInjective(a: Category, b: Category)
    ensures a.Label() == b.Label() ==> a == b
  {
  }

  /** The `export` section of the configuration; a missing keyword list is `[]`. */
  datatype ExportConfig = ExportConfig(
    roadshowKeywords: seq<string>,
    appointmentKeywords: seq<string>,
    opinionKeywords: seq<string>,
    promptTemplate: Option<string>,
    maxMessages: Option<int>)

  /** The characters of `https://meeting.tencent.com/\S+` before `\S+`; its
      two `.` are the regular-expression wildcard. */
  const MeetingLinkPattern := "https://meeting.tencent.com/"

  /** One pattern character against one text character: `.` is any
      character except a newline, anything else matches itself. */
  predicate PatternCharMatches(p: char, c: char) {
    if p == '.' then c != '\n' else c == p
  }

  /** The pattern matches at index `i`: its fixed part, then at least one
      non-whitespace character. */
  predicate MeetingLinkAt(text: string, i: nat) {
    && i + |MeetingLinkPattern| < |text|
    && (forall j :: 0 <= j < |MeetingLinkPattern| ==> PatternCharMatches(MeetingLinkPattern[j], text[i + j]))
    && !IsSpace(text[i + |MeetingLinkPattern|])
  }

  /** `re.search(r'https://meeting.tencent.com/\S+', text)` finds a match. */
  predicate HasMeetingLink(text: string) {
    exists i: nat | i < |text| :: MeetingLinkAt(text, i)
  }

  /** `any(kw in text for kw in kws)`. */
  predicate AnyKeyword(kws: seq<string>, text: string) {
    exists i :: 0 <= i < |kws| && Contains(text, kws[i])
  }

  /** The test of one category on the lowered text; 其他 always holds. */
  predicate Hit(c: Category, text: string, cfg: ExportConfig) {
    match c
    case Roadshow => HasMeetingLink(text) || AnyKeyword(cfg.roadshowKeywords, text)
    case Appointment => AnyKeyword(cfg.appointmentKeywords, text)
    case Opinion => AnyKeyword(cfg.opinionKeywords, text)
    case Other => true
  }

  /** `categorize_message`: the category of highest priority whose test
      holds on the lowered message. */
  function Categorize(message: string, cfg: ExportConfig): (c: Category)
    ensures Hit(c, Lower(message), cfg)
    ensures forall d: Category :: d.Priority() < c.Priority() ==> !Hit(d, Lower(message), cfg)
  {
    var text := Lower(message);
    if HasMeetingLink(text) then Roadshow
    else if AnyKeyword(cfg.roadshowKeywords, text) then Roadshow
    else if AnyKeyword(cfg.appointmentKeywords, text) then Appointment
    else if AnyKeyword(cfg.opinionKeywords, text) then Opinion
    else Other
  }

  /** The first-hit-by-priority description has exactly one solution, so it
      determines `Categorize`. */
  lemma CategorizeUnique(message: string, cfg: ExportConfig, c: Category)
    requires Hit(c, Lower(message), cfg)
    requires forall d: Category :: d.Priority() < c.Priority() ==> !Hit(d, Lower(message), cfg)
    ensures c == Categorize(message, cfg)
  {
    var r := Categorize(message, cfg);
    assert r.Priority() < c.Priority() ==> !Hit(r, Lower(message), cfg);
    assert c.Priority() < r.Priority() ==> !Hit(c, Lower(message), cfg);
  }

  /** The result is 其他 exactly when no link and no keyword of any list occurs. */
  lemma OtherIffNoHit(message: string, cfg: ExportConfig)
    ensures var t := Lower(message);
      Categorize(message, cfg) == Other <==>
        !HasMeetingLink(t) && !AnyKeyword(cfg.roadshowKeywords, t)
        && !AnyKeyword(cfg.appointmentKeywords, t) && !AnyKeyword(cfg.opinionKeywords, t)
  {
    var t := Lower(message);
    var c := Categorize(message, cfg);
    if c == Other {
      assert !Hit(Roadshow, t, cfg) && !Hit(Appointment, t, cfg) && !Hit(Opinion, t, cfg);
    }
  }

  /** A roadshow keyword decides the category whatever the other lists hold. */
  lemma RoadshowKeywordWins(message: string, cfg: ExportConfig, i: nat)
    requires i < |cfg.roadshowKeywords| && Contains(Lower(message), cfg.roadshowKeywords[i])
    ensures Categorize(message, cfg) == Roadshow
  {
    assert Hit(Roadshow, Lower(message), cfg);
  }

  /** An appointment keyword wins over every opinion keyword when no
      roadshow test holds. */
  lemma AppointmentBeforeOpinion(message: string, cfg: ExportConfig, i: nat)
    requires !Hit(Roadshow, Lower(message), cfg)
    requires i < |cfg.appointmentKeywords| && Contains(Lower(message), cfg.appointmentKeywords[i])
    ensures Categorize(message, cfg) == Appointment
  {
    assert Hit(Appointment, Lower(message), cfg);
  }

  /** The fixed part of the link followed by one non-space character is a
      match, whoever wrote it in which case. */
  lemma MeetingLinkIsRoadshow(message: string, cfg: ExportConfig, c: char)
    requires !IsSpace(c)
    requires Contains(Lower(message), MeetingLinkPattern + [c])
    ensures Categorize(message, cfg) == Roadshow
  {
    var t := Lower(message);
    var p := MeetingLinkPattern + [c];
    var i: nat :| i <= |t| && OccursAt(t, p, i);
    OccursAtChars(t, p, i);
    assert t[i + |MeetingLinkPattern|] == p[|MeetingLinkPattern|];
    forall j | 0 <= j < |MeetingLinkPattern|
      ensures PatternCharMatches(MeetingLinkPattern[j], t[i + j])
    {
      assert t[i + j] == p[j];
    }
    assert MeetingLinkAt(t, i);
  }

  /** The two dots of the pattern are wildcards: any characters other than
      a newline in their place still make a meeting link. */
  lemma DotsAreWildcards(a: char, b: char, c: char, cfg: ExportConfig)
    requires a != '\n' && b != '\n' && !IsSpace(c)
    ensures var t := MeetingLinkPattern[..15] + [a] + MeetingLinkPattern[16..23] + [b] + MeetingLinkPattern[24..] + [c];
      && HasMeetingLink(t)
      && ((forall i :: 0 <= i < |t| ==> !('A' <= t[i] <= 'Z')) ==> Categorize(t, cfg) == Roadshow)
  {
    var t := MeetingLinkPattern[..15] + [a] + MeetingLinkPattern[16..23] + [b] + MeetingLinkPattern[24..] + [c];
    assert MeetingLinkPattern[15] == '.' && MeetingLinkPattern[23] == '.';
    forall j | 0 <= j < |MeetingLinkPattern|
      ensures PatternCharMatches(MeetingLinkPattern[j], t[j])
    {
      if j != 15 && j != 23 {
        assert t[j] == MeetingLinkPattern[j];
      }
    }
    assert MeetingLinkAt(t, 0);
    if forall i :: 0 <= i < |t| ==> !('A' <= t[i] <= 'Z') {
      LowerWithoutCapitals(t);
    }
  }

  /** A keyword holding an ASCII capital letter is never found, so adding one
      to any list changes no category. */
  lemma CapitalKeywordIgnored(message: string, cfg: ExportConfig, kw: string, j: nat)
    requires j < |kw| && 'A' <= kw[j] <= 'Z'
    ensures Categorize(message, cfg.(roadshowKeywords := cfg.roadshowKeywords + [kw])) == Categorize(message, cfg)
    ensures Categorize(message, cfg.(appointmentKeywords := cfg.appointmentKeywords + [kw])) == Categorize(message, cfg)
    ensures Categorize(message, cfg.(opinionKeywords := cfg.opinionKeywords + [kw])) == Categorize(message, cfg)
  {
    var t := Lower(message);
    CapitalNeverInLower(message, kw, j);
    AnyKeywordSnocAbsent(cfg.roadshowKeywords, kw, t);
    AnyKeywordSnocAbsent(cfg.appointmentKeywords, kw, t);
    AnyKeywordSnocAbsent(cfg.opinionKeywords, kw, t);
  }

  /** A keyword that does not occur adds no hit to its list. */
  lemma AnyKeywordSnocAbsent(kws: seq<string>, kw: string, text: string)
    requires !Contains(text, kw)
    ensures AnyKeyword(kws + [kw], text) == AnyKeyword(kws, text)
  {
    if AnyKeyword(kws + [kw], text) {
      var i :| 0 <= i < |kws + [kw]| && Contains(text, (kws + [kw])[i]);
      assert i < |kws|;
      assert (kws + [kw])[i] == kws[i];
    }
    if AnyKeyword(kws, text) {
      var i :| 0 <= i < |kws| && Contains(text, kws[i]);
      assert (kws + [kw])[i] == kws[i];
    }
  }

  // ---------------------------------------------------------------------
  // The log scan of `process_log_files`

  /** A JSON value inside a log entry: a string, or anything else (kept as
      an uninterpreted rendering). */
  datatype Json = JString(s: string) | JOther(repr: string)

  /** One element of a log file's top-level list: a JSON object, or any
      other value. */
  datatype LogEntry = Record(fields: map<string, Json>) | NotRecord

  /** One `chat_*.json` file after decoding. */
  datatype LogFile =
    | Undecodable              // `json.JSONDecodeError`: the file is skipped
    | NotAList                 // decoded, but not a list: the file is skipped
    | Entries(entries: seq<LogEntry>)

  /** One row of the exported sheet. */
  datatype Row = Row(timestamp: Json, message: string, reply: Json, category: Category)

  /** The entries `process_log_files` uses: objects with all three keys. */
  predicate IsValidEntry(e: LogEntry) {
    e.Record? && "timestamp" in e.fields && "message" in e.fields && "reply" in e.fields
  }

  function EntryRow(e: LogEntry, cfg: ExportConfig): (r: Row)
    requires IsValidEntry(e) && e.fields["message"].JString?
    ensures r.message == e.fields["message"].s
    ensures r.category == Categorize(r.message, cfg)
  {
    var m := e.fields["message"].s;
    Row(e.fields["timestamp"], m, e.fields["reply"], Categorize(m, cfg))
  }

  /** Where the scan of one file's entries stands: the rows so far, and
      whether a non-string message stopped it (its `.lower()` raises, and the
      rest of the file is abandoned). */
  datatype FileScan = FileScan(rows: seq<Row>, stopped: bool)

  function ScanEntries(entries: seq<LogEntry>, cfg: ExportConfig): (s: FileScan)
    ensures |s.rows| <= |entries|
  {
    if entries == [] then FileScan([], false)
    else
      var prev := ScanEntries(entries[..|entries| - 1], cfg);
      var e := entries[|entries| - 1];
      if prev.stopped || !IsValidEntry(e) then prev
      else if !e.fields["message"].JString? then FileScan(prev.rows, true)
      else FileScan(prev.rows + [EntryRow(e, cfg)], false)
  }

  /** The rows one file contributes; a skipped file contributes none. */
  function FileRows(f: LogFile, cfg: ExportConfig): seq<Row> {
    if f.Entries? then ScanEntries(f.entries, cfg).rows else []
  }

  /** The rows of all files, in the order the files are given. */
  function AllRows(files: seq<LogFile>, cfg: ExportConfig): seq<Row> {
    if files == [] then []
    else AllRows(files[..|files| - 1], cfg) + FileRows(files[|files| - 1], cfg)
  }

  /** The valid entries of a list, in order. */
  function ValidEntries(entries: seq<LogEntry>): (vs: seq<LogEntry>)
    ensures forall i :: 0 <= i < |vs| ==> IsValidEntry(vs[i])
  {
    if entries == [] then []
    else
      var e := entries[|entries| - 1];
      ValidEntries(entries[..|entries| - 1]) + (if IsValidEntry(e) then [e] else [])
  }

  predicate StringMessages(entries: seq<LogEntry>) {
    forall i :: 0 <= i < |entries| && IsValidEntry(entries[i]) ==> entries[i].fields["message"].JString?
  }

  /** The rows of a list of valid entries with string messages. */
  function RowsOf(vs: seq<LogEntry>, cfg: ExportConfig): (rs: seq<Row>)
    requires forall i :: 0 <= i < |vs| ==> IsValidEntry(vs[i]) && vs[i].fields["message"].JString?
    ensures |rs| == |vs|
    ensures forall i :: 0 <= i < |vs| ==> rs[i] == EntryRow(vs[i], cfg)
  {
    if vs == [] then [] else [EntryRow(vs[0], cfg)] + RowsOf(vs[1..], cfg)
  }

  lemma {:induction false} RowsOfSnoc(vs: seq<LogEntry>, e: LogEntry, cfg: ExportConfig)
    requires forall i :: 0 <= i < |vs| ==> IsValidEntry(vs[i]) && vs[i].fields["message"].JString?
    requires IsValidEntry(e) && e.fields["message"].JString?
    ensures RowsOf(vs + [e], cfg) == RowsOf(vs, cfg) + [EntryRow(e, cfg)]
  {
  }

  /** With every message a string, a file's rows are its valid entries, one
      row each and in input order, and the scan runs to the end. */
  lemma {:induction false} ScanKeepsValidEntries(entries: seq<LogEntry>, cfg: ExportConfig)
    requires StringMessages(entries)
    ensures StringMessages(ValidEntries(entries))
    ensures !ScanEntries(entries, cfg).stopped
    ensures ScanEntries(entries, cfg).rows == RowsOf(ValidEntries(entries), cfg)
  {
    if entries != [] {
      var init := entries[..|entries| - 1];
      var e := entries[|entries| - 1];
      assert StringMessages(init) by {
        forall i | 0 <= i < |init| && IsValidEntry(init[i])
          ensures init[i].fields["message"].JString?
        {
          assert init[i] == entries[i];
        }
      }
      ScanKeepsValidEntries(init, cfg);
      var vi := ValidEntries(init);
      if IsValidEntry(e) {
        assert ValidEntries(entries) == vi + [e];
        assert StringMessages(vi + [e]) by {
          forall i | 0 <= i < |vi + [e]| && IsValidEntry((vi + [e])[i])
            ensures (vi + [e])[i].fields["message"].JString?
          {
            if i < |vi| {
              assert (vi + [e])[i] == vi[i];
            }
          }
        }
        RowsOfSnoc(vi, e, cfg);
      } else {
        assert ValidEntries(entries) == vi + [];
      }
    }
  }

  /** A valid entry whose message is not a string ends the file: nothing
      from it or after it becomes a row. */
  lemma {:induction false} ScanStopsAtBadMessage(entries: seq<LogEntry>, cfg: ExportConfig, k: nat)
    requires k < |entries| && IsValidEntry(entries[k]) && !entries[k].fields["message"].JString?
    ensures ScanEntries(entries, cfg).stopped
    ensures ScanEntries(entries, cfg).rows == ScanEntries(entries[..k], cfg).rows
    decreases |entries|
  {
    var init := entries[..|entries| - 1];
    if k == |entries| - 1 {
      assert init == entries[..k];
    } else {
      assert init[..k] == entries[..k];
      assert init[k] == entries[k];
      ScanStopsAtBadMessage(init, cfg, k);
    }
  }

  /** The messages of the rows of one category, in row order. */
  function MessagesOf(rows: seq<Row>, c: Category): (ms: seq<string>)
    ensures |ms| <= |rows|
  {
    if rows == [] then []
    else
      var r := rows[|rows| - 1];
      MessagesOf(rows[..|rows| - 1], c) + (if r.category == c then [r.message] else [])
  }

  /** Every row lands in exactly one category: the four lists together are
      as long as the row list. */
  lemma {:induction false} MessagesPartitionRows(rows: seq<Row>)
    ensures |MessagesOf(rows, Roadshow)| + |MessagesOf(rows, Appointment)|
      + |MessagesOf(rows, Opinion)| + |MessagesOf(rows, Other)| == |rows|
  {
    if rows != [] {
      MessagesPartitionRows(rows[..|rows| - 1]);
    }
  }

  /** A message is in a category's list exactly when some row of that
      category carries it. */
  lemma {:induction false} MessagesOfMembers(rows: seq<Row>, c: Category, m: string)
    ensures m in MessagesOf(rows, c) <==> exists i :: 0 <= i < |rows| && rows[i].category == c && rows[i].message == m
  {
    if rows != [] {
      var init := rows[..|rows| - 1];
      MessagesOfMembers(init, c, m);
      if exists i :: 0 <= i < |init| && init[i].category == c && init[i].message == m {
        var i :| 0 <= i < |init| && init[i].category == c && init[i].message == m;
        assert rows[i] == init[i];
      }
      if exists i :: 0 <= i < |rows| && rows[i].category == c && rows[i].message == m {
        var i :| 0 <= i < |rows| && rows[i].category == c && rows[i].message == m;
        if i < |init| {
          assert init[i] == rows[i];
        }
      }
    }
  }

  /** The list `messages_by_category` holds for a category after the rows:
      the messages of that category, except that 其他 stays empty. */
  function CategoryList(rows: seq<Row>, c: Category): (ms: seq<string>)
    ensures c == Other ==> ms == []
  {
    if c == Other then [] else MessagesOf(rows, c)
  }

  /** `messages_by_category` agrees with the rows: every category is a key
      and holds its list. */
  predicate ListsMatch(byCategory: map<Category, seq<string>>, rows: seq<Row>) {
    && (forall c: Category :: c in byCategory)
    && forall c :: c in byCategory ==> byCategory[c] == CategoryList(rows, c)
  }

  /** A row adds its message to its own category's list and to no other. */
  lemma CategoryListSnoc(rows: seq<Row>, row: Row, c: Category)
    ensures CategoryList(rows + [row], c) ==
      if row.category == c && c != Other then CategoryList(rows, c) + [row.message] else CategoryList(rows, c)
  {
    assert (rows + [row])[..|rows|] == rows;
  }

  /** The loop over one file's entries: appends its rows to `allData`
      and their messages to the category lists. */
  method ScanFile(es: seq<LogEntry>, cfg: ExportConfig, allData0: seq<Row>, byCategory0: map<Category, seq<string>>)
    returns (allData: seq<Row>, byCategory: map<Category, seq<string>>)
    requires ListsMatch(byCategory0, allData0)
    ensures allData == allData0 + ScanEntries(es, cfg).rows
    ensures ListsMatch(byCategory, allData)
  {
    allData, byCategory := allData0, byCategory0;
    var j := 0;
    ghost var fileRows: seq<Row> := [];
    while j < |es|
      invariant 0 <= j <= |es|
      invariant ScanEntries(es[..j], cfg) == FileScan(fileRows, false)
      invariant allData == allData0 + fileRows
      invariant ListsMatch(byCategory, allData)
    {
      assert es[..j + 1][..j] == es[..j];
      var e := es[j];
      if IsValidEntry(e) {
        if !e.fields["message"].JString? {
          ScanStopsAtBadMessage(es, cfg, j);
          return;
        }
        var row := EntryRow(e, cfg);
        forall c: Category ensures CategoryList(allData + [row], c) ==
          if row.category == c && c != Other then CategoryList(allData, c) + [row.message] else CategoryList(allData, c)
        {
          CategoryListSnoc(allData, row, c);
        }
        if row.category != Other {
          byCategory := byCategory[row.category := byCategory[row.category] + [row.message]];
        }
        allData := allData + [row];
        fileRows := fileRows + [row];
      }
      j := j + 1;
    }
    assert es[..j] == es;
  }

  /** `process_log_files` over the decoded files, in the order given. */
  method ProcessLogFiles(files: seq<LogFile>, cfg: ExportConfig)
    returns (allData: seq<Row>, byCategory: map<Category, seq<string>>)
    ensures allData == AllRows(files, cfg)
    ensures ListsMatch(byCategory, allData)
  {
    allData := [];
    byCategory := map[Roadshow := [], Appointment := [], Opinion := [], Other := []];
    forall c: Category ensures c in byCategory && byCategory[c] == CategoryList(allData, c) {
      match c
      case Roadshow =>
      case Appointment =>
      case Opinion =>
      case Other =>
    }
    var i := 0;
    while i < |files|
      invariant 0 <= i <= |files|
      invariant allData == AllRows(files[..i], cfg)
      invariant ListsMatch(byCategory, allData)
    {
      assert files[..i + 1][..i] == files[..i];
      var f := files[i];
      if f.Entries? {
        allData, byCategory := ScanFile(f.entries, cfg, allData, byCategory);
      }
      i := i + 1;
    }
    assert files[..i] == files;
  }

  // ---------------------------------------------------------------------
  // Summaries of `summarize_categories`

  const DefaultPromptTemplate := "请总结以下关于{category}的聊天记录要点：\\n\\n{messages}"
  const DefaultMaxMessages := 100
  const SummaryFailed := "Failed to generate summary."
  /** The separator between the bullet lines: a backslash and an `n`, as the
      source's `"\\n"` literal is written. */
  const LineSeparator := "\\n"

  /** The order in which `messages_by_category` holds its keys: the order of
      its dict literal, which `ProcessLogFiles` fills. */
  const CategoryOrder := [Roadshow, Appointment, Opinion, Other]

  /** The categories `summarize_categories` visits, in order: not 其他, and
      with a non-empty message list. */
  function VisitedAmong(order: seq<Category>, byCategory: map<Category, seq<string>>): (vs: seq<Category>)
    ensures |vs| <= |order|
    ensures forall i :: 0 <= i < |vs| ==> vs[i] in order && vs[i] != Other && vs[i] in byCategory && byCategory[vs[i]] != []
  {
    if order == [] then []
    else
      var c := order[|order| - 1];
      VisitedAmong(order[..|order| - 1], byCategory)
        + (if c != Other && c in byCategory && byCategory[c] != [] then [c] else [])
  }

  /** The messages summarised: `messages[-max_messages:]`. */
  function SummaryInput(messages: seq<string>, maxMessages: int): (ms: seq<string>)
    ensures maxMessages >= 1 ==> |ms| == (if maxMessages <= |messages| then maxMessages else |messages|)
    ensures |ms| <= |messages|
    ensures ms == messages[|messages| - |ms|..]
  {
    SliceFrom(messages, -maxMessages)
  }

  /** `max_messages_for_summary` set to 0 summarises every message, as
      `messages[-0:]` is the whole list. */
  lemma SummaryInputZeroTakesAll(messages: seq<string>)
    ensures SummaryInput(messages, 0) == messages
  {
  }

  /** The bullet lines `- message`. */
  function Bullets(messages: seq<string>): (bs: seq<string>)
    ensures |bs| == |messages|
    ensures forall i :: 0 <= i < |messages| ==> bs[i] == "- " + messages[i]
  {
    seq(|messages|, i requires 0 <= i < |messages| => "- " + messages[i])
  }

  /** `prompt_template.format(category=…, messages=…)` for a template whose
      only fields are `{category}` and `{messages}`. */
  function FormatPrompt(template: string, c: Category, messages: seq<string>): string {
    ReplaceAll(ReplaceAll(template, "{category}", c.Label()), "{messages}", Join(LineSeparator, Bullets(messages)))
  }

  /** The stored summary: the answer itself, unless it is empty or apologises. */
  function AcceptSummary(answer: string): (s: string)
    ensures answer != "" && !Contains(answer, AiModel.Apology) ==> s == answer
    ensures answer == "" || Contains(answer, AiModel.Apology) ==> s == SummaryFailed
  {
    if answer != "" && !Contains(answer, AiModel.Apology) then answer else SummaryFailed
  }

  /** A stored summary is never empty and never apologises. */
  lemma AcceptedSummaryClean(answer: string)
    ensures AcceptSummary(answer) != ""
    ensures !Contains(AcceptSummary(answer), AiModel.Apology)
  {
    if Contains(SummaryFailed, AiModel.Apology) {
      ContainsHasChar(SummaryFailed, AiModel.Apology, 0);
    }
  }

  /** Any failure of the chat API, which `generate_reply` returns as one of
      its apologies, is stored as the failure summary. */
  lemma FailedCallGivesFailedSummary(apiKey: string, apiUrl: string, outcome: AiModel.ApiOutcome)
    requires apiKey == "" || apiUrl == "" || !outcome.Choice?
    ensures AcceptSummary(AiModel.ApiReply(apiKey, apiUrl, outcome)) == SummaryFailed
  {
    AiModel.FailureRepliesApologise(apiKey, apiUrl, outcome);
  }

  /** No category occurs twice, as in the keys of a dict. */
  predicate Distinct(vs: seq<Category>) {
    forall i, j :: 0 <= i < j < |vs| ==> vs[i] != vs[j]
  }

  /** One more key visits that key, when it qualifies, after the others. */
  lemma VisitedSnoc(order: seq<Category>, byCategory: map<Category, seq<string>>, i: nat)
    requires i < |order|
    ensures VisitedAmong(order[..i + 1], byCategory) == VisitedAmong(order[..i], byCategory)
      + (if order[i] != Other && order[i] in byCategory && byCategory[order[i]] != [] then [order[i]] else [])
  {
    assert order[..i + 1][..i] == order[..i];
  }

  /** A prefix of the key order visits no more categories than the whole. */
  lemma {:induction false} VisitedMonotone(order: seq<Category>, byCategory: map<Category, seq<string>>, n: nat)
    requires n <= |order|
    ensures |VisitedAmong(order[..n], byCategory)| <= |VisitedAmong(order, byCategory)|
    decreases |order| - n
  {
    if n == |order| {
      assert order[..n] == order;
    } else {
      VisitedMonotone(order, byCategory, n + 1);
      assert order[..n + 1][..n] == order[..n];
    }
  }

  /** Visiting distinct keys visits each category at most once. */
  lemma {:induction false} VisitedDistinct(order: seq<Category>, byCategory: map<Category, seq<string>>)
    requires Distinct(order)
    ensures Distinct(VisitedAmong(order, byCategory))
  {
    if order != [] {
      var init := order[..|order| - 1];
      var c := order[|order| - 1];
      assert Distinct(init) by {
        forall i, j | 0 <= i < j < |init| ensures init[i] != init[j] {
          assert init[i] == order[i] && init[j] == order[j];
        }
      }
      VisitedDistinct(init, byCategory);
      var vi := VisitedAmong(init, byCategory);
      forall i | 0 <= i < |vi| ensures vi[i] != c {
        var j :| 0 <= j < |init| && init[j] == vi[i];
        assert order[j] == init[j];
      }
    }
  }

  /** A qualifying key of `order` is visited. */
  lemma {:induction false} VisitedAmongMembers(order: seq<Category>, byCategory: map<Category, seq<string>>, c: Category)
    requires c in order && c != Other && c in byCategory && byCategory[c] != []
    ensures c in VisitedAmong(order, byCategory)
  {
    var init := order[..|order| - 1];
    if order[|order| - 1] != c {
      assert c in init by {
        var j :| 0 <= j < |order| && order[j] == c;
        assert init[j] == c;
      }
      VisitedAmongMembers(init, byCategory, c);
    }
  }

  /** The written key order names every category once. */
  lemma CategoryOrderKeys()
    ensures Distinct(CategoryOrder)
    ensures forall c: Category :: c in CategoryOrder
  {
    forall c: Category ensures c in CategoryOrder {
      match c
      case Roadshow => assert CategoryOrder[0] == c;
      case Appointment => assert CategoryOrder[1] == c;
      case Opinion => assert CategoryOrder[2] == c;
      case Other => assert CategoryOrder[3] == c;
    }
  }

  /** With the keys of `messages_by_category` in their written order, every
      category but 其他 that has messages is summarised, and exactly once. */
  lemma CategoryOrderSummarisesEachOnce(byCategory: map<Category, seq<string>>)
    ensures Distinct(VisitedAmong(CategoryOrder, byCategory))
    ensures forall c: Category ::
      c in VisitedAmong(CategoryOrder, byCategory) <==> c != Other && c in byCategory && byCategory[c] != []
  {
    CategoryOrderKeys();
    VisitedDistinct(CategoryOrder, byCategory);
    forall c: Category | c != Other && c in byCategory && byCategory[c] != []
      ensures c in VisitedAmong(CategoryOrder, byCategory)
    {
      VisitedAmongMembers(CategoryOrder, byCategory, c);
    }
  }

  /** The summaries and prompts after visiting `visited`: the `k`-th visited
      category was summarised from `answers[k]` after the `k`-th prompt. */
  predicate Summarised(visited: seq<Category>, summaries: seq<(Category, string)>, prompts: seq<string>,
                       byCategory: map<Category, seq<string>>, template: string, maxMessages: int, answers: seq<string>) {
    && |summaries| == |visited| && |prompts| == |visited| && |visited| <= |answers|
    && forall k :: 0 <= k < |visited| ==>
      && visited[k] in byCategory
      && summaries[k] == (visited[k], AcceptSummary(answers[k]))
      && prompts[k] == FormatPrompt(template, visited[k], SummaryInput(byCategory[visited[k]], maxMessages))
  }

  /** One pass of the loop of `summarize_categories`, for the category `c`
      and its list. */
  method SummarizeOne(c: Category, byCategory: map<Category, seq<string>>, template: string, maxMessages: int, answers: seq<string>,
                      ghost visited: seq<Category>, summaries0: seq<(Category, string)>, prompts0: seq<string>)
    returns (summaries: seq<(Category, string)>, prompts: seq<string>, ghost visited': seq<Category>)
    requires Summarised(visited, summaries0, prompts0, byCategory, template, maxMessages, answers)
    requires c != Other && c in byCategory && byCategory[c] != [] ==> |visited| < |answers|
    ensures visited' == visited + (if c != Other && c in byCategory && byCategory[c] != [] then [c] else [])
    ensures Summarised(visited', summaries, prompts, byCategory, template, maxMessages, answers)
    ensures if c != Other && c in byCategory && byCategory[c] != [] then
        && |prompts0| < |answers|
        && summaries == summaries0 + [(c, AcceptSummary(answers[|prompts0|]))]
        && prompts == prompts0 + [FormatPrompt(template, c, SummaryInput(byCategory[c], maxMessages))]
      else summaries == summaries0 && prompts == prompts0
  {
    summaries, prompts, visited' := summaries0, prompts0, visited;
    if c != Other && c in byCategory && byCategory[c] != [] {
      var prompt := FormatPrompt(template, c, SummaryInput(byCategory[c], maxMessages));
      var answer := answers[|prompts|];
      prompts := prompts + [prompt];
      summaries := summaries + [(c, AcceptSummary(answer))];
      visited' := visited + [c];
    } else {
      assert visited' == visited + [];
    }
  }

  /** `summarize_categories`, visiting the keys of `messages_by_category`
      in their order `order`. `answers[k]` is what the model replies to
      the `k`-th prompt; `prompts` are the prompts sent, in order. The
      summaries dict is given as its items in insertion order, the order in
      which the summary sheet lists them. */
  method SummarizeCategories(byCategory: map<Category, seq<string>>, order: seq<Category>, cfg: ExportConfig, answers: seq<string>)
    returns (summaries: seq<(Category, string)>, prompts: seq<string>)
    requires |answers| >= |VisitedAmong(order, byCategory)|
    ensures var vs := VisitedAmong(order, byCategory);
      && |summaries| == |vs| && |prompts| == |vs|
      && forall k :: 0 <= k < |vs| ==>
        && summaries[k] == (vs[k], AcceptSummary(answers[k]))
        && prompts[k] == FormatPrompt(cfg.promptTemplate.GetOr(DefaultPromptTemplate), vs[k],
             SummaryInput(byCategory[vs[k]], cfg.maxMessages.GetOr(DefaultMaxMessages)))
  {
    var template := cfg.promptTemplate.GetOr(DefaultPromptTemplate);
    var maxMessages := cfg.maxMessages.GetOr(DefaultMaxMessages);
    summaries := [];
    prompts := [];
    ghost var visited: seq<Category> := [];
    var i := 0;
    while i < |order|
      invariant 0 <= i <= |order|
      invariant visited == VisitedAmong(order[..i], byCategory)
      invariant Summarised(visited, summaries, prompts, byCategory, template, maxMessages, answers)
    {
      VisitedSnoc(order, byCategory, i);
      VisitedMonotone(order, byCategory, i + 1);
      summaries, prompts, visited := SummarizeOne(order[i], byCategory, template, maxMessages, answers, visited, summaries, prompts);
      i := i + 1;
    }
    assert order[..i] == order;
  }
}
