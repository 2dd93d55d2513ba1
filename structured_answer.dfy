/** The structured-answer parser: it reads an answer written in a small Markdown-like dialect
    (numbered bold section headings `N. **Title**`, titled dash bullets `- **Title**:`, plain
    dash bullets and plain text) line by line and groups it into titled sections whose bodies
    are text paragraphs and titled bullet lists.

    `ParseAnswerIntoSections` is the parser as the application runs it: one pass over the
    lines with three accumulators (the open section, the open bullet list and the open nested
    list). The two lists are objects that the source appends to the open section and then keeps
    growing through a second reference; here that aliasing is an index into the open section's
    body. `Parse` is an independent reference definition without accumulators (the open
    bullet list is "the last bullet node of the open section"); the method is proved equal to
    it, and the lemmas below state what the parser promises in terms of it. */
module StructuredAnswer {
  import opened Wrappers
  import opened JsString

  /** A body item of a section. */
  datatype ContentNode =
    | Text(text: string)
    | Bullet(title: string, points: seq<string>)
    | Nested(title: string, points: seq<string>)

  datatype Section = Section(title: string, content: seq<ContentNode>)

  // ---------------------------------------------------------------------------------------
  // Section icons

  /** The icons a section heading can be decorated with. */
  datatype IconKind = BookOpen | HelpCircle | Settings | AlertCircle | CheckCircle | ChevronDown

  const KnownSectionTitles: seq<string> :=
    ["introduction", "issue analysis", "troubleshooting steps", "root cause analysis", "escalation and handling"]

  /** The icon for a section title: one per known title, compared case-insensitively, and a
      generic chevron for every other title. */
  function SectionIcon(sectionType: string): (icon: IconKind)
    ensures icon == BookOpen <==> Lower(sectionType) == "introduction"
    ensures icon == HelpCircle <==> Lower(sectionType) == "issue analysis"
    ensures icon == Settings <==> Lower(sectionType) == "troubleshooting steps"
    ensures icon == AlertCircle <==> Lower(sectionType) == "root cause analysis"
    ensures icon == CheckCircle <==> Lower(sectionType) == "escalation and handling"
    ensures icon == ChevronDown <==> Lower(sectionType) !in KnownSectionTitles
  {
    var key := Lower(sectionType);
    if key == "introduction" then BookOpen
    else if key == "issue analysis" then HelpCircle
    else if key == "troubleshooting steps" then Settings
    else if key == "root cause analysis" then AlertCircle
    else if key == "escalation and handling" then CheckCircle
    else ChevronDown
  }

  /** The icon does not depend on the case of the title. */
  lemma SectionIconIgnoresCase(sectionType: string)
    ensures SectionIcon(Lower(sectionType)) == SectionIcon(sectionType)
  {
    LowerIdempotent(sectionType);
  }

  // ---------------------------------------------------------------------------------------
  // The line patterns, as hand-written matchers

  /** The length of the longest all-digit prefix of `s` (`\d*`). */
  function SpanDigits(s: string): (n: nat)
    ensures n <= |s|
    ensures forall i :: 0 <= i < n ==> IsDigit(s[i])
    ensures n < |s| ==> !IsDigit(s[n])
  {
    if s == [] || !IsDigit(s[0]) then 0
    else
      var k := SpanDigits(s[1..]);
      assert forall i :: 1 <= i < k + 1 ==> s[i] == s[1..][i - 1];
      k + 1
  }

  /** The length of the longest prefix of `s` without a star (`[^*]*`). */
  function SpanNonStar(s: string): (n: nat)
    ensures n <= |s|
    ensures forall i :: 0 <= i < n ==> s[i] != '*'
    ensures n < |s| ==> s[n] == '*'
  {
    if s == [] || s[0] == '*' then 0
    else
      var k := SpanNonStar(s[1..]);
      assert forall i :: 1 <= i < k + 1 ==> s[i] == s[1..][i - 1];
      k + 1
  }

  /** Matches `\*\*([^*]+)\*\*` at the start of `s`: the captured title and what follows the
      closing stars. */
  function MatchBold(s: string): (r: Option<(string, string)>)
    ensures r.Some? ==> |r.value.0| >= 1
  {
    if |s| >= 2 && s[0] == '*' && s[1] == '*' then
      var n := SpanNonStar(s[2..]);
      if n >= 1 && n + 4 <= |s| && s[n + 2] == '*' && s[n + 3] == '*' then Some((s[2..n + 2], s[n + 4..]))
      else None
    else None
  }

  /** Matches `\s+\*\*([^*]+)\*\*` at the start of `s`: the captured title and what follows
      the closing stars. */
  function MatchGapBold(s: string): (r: Option<(string, string)>)
    ensures r.Some? ==> |r.value.0| >= 1
  {
    var w := LeadingSpaces(s);
    if w >= 1 then MatchBold(s[w..]) else None
  }

  /** The section-heading pattern `^\d+\.\s+\*\*([^*]+)\*\*`: the captured title. */
  function MatchHeader(line: string): (r: Option<string>)
    ensures r.Some? ==> |line| >= 1 && IsDigit(line[0])
    ensures r.Some? ==> |r.value| >= 1
  {
    var d := SpanDigits(line);
    if d >= 1 && d < |line| && line[d] == '.' then
      match MatchGapBold(line[d + 1..])
      case Some((title, _)) => Some(title)
      case None => None
    else None
  }

  /** The pattern `-\s+\*\*([^*]+)\*\*:` at the start of `s`: the captured title. */
  function MatchDashTitle(s: string): (r: Option<string>)
    ensures r.Some? ==> |s| >= 1 && s[0] == '-'
    ensures r.Some? ==> |r.value| >= 1
  {
    if |s| >= 1 && s[0] == '-' then
      match MatchGapBold(s[1..])
      case Some((title, rest)) => if |rest| >= 1 && rest[0] == ':' then Some(title) else None
      case None => None
    else None
  }

  /** The titled-bullet pattern `^\s*-\s+\*\*([^*]+)\*\*:`: the captured title. */
  function MatchTitledBullet(line: string): (r: Option<string>)
    ensures r.Some? ==> |r.value| >= 1
  {
    MatchDashTitle(line[LeadingSpaces(line)..])
  }

  /** The nested-bullet pattern `^\s+-\s+\*\*([^*]+)\*\*:`: the captured title. */
  function MatchNestedBullet(line: string): (r: Option<string>)
    ensures r.Some? ==> |line| >= 1 && IsSpace(line[0])
    ensures r.Some? ==> |r.value| >= 1
  {
    var w := LeadingSpaces(line);
    if w >= 1 then MatchDashTitle(line[w..]) else None
  }

  predicate AllDigits(s: string) {
    forall i :: 0 <= i < |s| ==> IsDigit(s[i])
  }

  /** A line the heading pattern accepts, cut into its parts: `digits` `.` `gap` `**` `title`
      `**` `rest`. */
  predicate HeaderShape(line: string, digits: string, gap: string, title: string, rest: string) {
    && |digits| >= 1 && AllDigits(digits)
    && |gap| >= 1 && AllSpace(gap)
    && |title| >= 1 && '*' !in title
    && line == digits + "." + gap + "**" + title + "**" + rest
  }

  /** A line the titled-bullet pattern accepts, cut into its parts: `lead` `-` `gap` `**`
      `title` `**:` `rest`. */
  predicate TitledBulletShape(line: string, lead: string, gap: string, title: string, rest: string) {
    && AllSpace(lead)
    && |gap| >= 1 && AllSpace(gap)
    && |title| >= 1 && '*' !in title
    && line == lead + "-" + gap + "**" + title + "**:" + rest
  }

  /** `n` digits followed by a non-digit (or the end) are exactly the leading digits of `s`. */
  lemma SpanDigitsAt(s: string, n: nat)
    requires n <= |s| && forall i :: 0 <= i < n ==> IsDigit(s[i])
    requires n < |s| ==> !IsDigit(s[n])
    ensures SpanDigits(s) == n
  {
  }

  /** `**title**` followed by `rest` is matched by `MatchBold` with exactly that title and rest. */
  lemma MatchBoldOf(title: string, rest: string)
    requires |title| >= 1 && '*' !in title
    ensures MatchBold("**" + title + "**" + rest) == Some((title, rest))
  {
    var s := "**" + title + "**" + rest;
    var t := s[2..];
    assert t == title + "**" + rest;
    assert forall i :: 0 <= i < |title| ==> t[i] == title[i] && t[i] != '*';
    assert t[|title|] == '*';
    assert SpanNonStar(t) == |title|;
    assert s[2..|title| + 2] == title;
    assert s[|title| + 4..] == rest;
  }

  /** White space, then `**title**`, then `rest` is matched by `MatchGapBold`. */
  lemma MatchGapBoldOf(gap: string, title: string, rest: string)
    requires |gap| >= 1 && AllSpace(gap)
    requires |title| >= 1 && '*' !in title
    ensures MatchGapBold(gap + "**" + title + "**" + rest) == Some((title, rest))
  {
    var bold := "**" + title + "**" + rest;
    var s := gap + bold;
    assert s == gap + "**" + title + "**" + rest;
    assert forall i :: 0 <= i < |gap| ==> s[i] == gap[i];
    assert s[|gap|] == '*';
    LeadingSpacesAt(s, |gap|);
    assert s[|gap|..] == bold;
    MatchBoldOf(title, rest);
  }

  /** Every line of the heading shape is matched, with its title captured. */
  lemma HeaderMatchComplete(digits: string, gap: string, title: string, rest: string)
    requires |digits| >= 1 && AllDigits(digits)
    requires |gap| >= 1 && AllSpace(gap)
    requires |title| >= 1 && '*' !in title
    ensures MatchHeader(digits + "." + gap + "**" + title + "**" + rest) == Some(title)
  {
    var tail := gap + "**" + title + "**" + rest;
    var line := digits + "." + gap + "**" + title + "**" + rest;
    assert line == digits + "." + tail;
    assert forall i :: 0 <= i < |digits| ==> line[i] == digits[i];
    assert line[|digits|] == '.';
    SpanDigitsAt(line, |digits|);
    assert line[|digits| + 1..] == tail;
    MatchGapBoldOf(gap, title, rest);
  }

  /** What `MatchGapBold` accepts: white space, then `**title**` with a star-free title, then the rest. */
  lemma MatchGapBoldSound(s: string) returns (gap: string)
    requires MatchGapBold(s).Some?
    ensures |gap| >= 1 && AllSpace(gap)
    ensures var (title, rest) := MatchGapBold(s).value;
            |title| >= 1 && '*' !in title && s == gap + "**" + title + "**" + rest
  {
    var w := LeadingSpaces(s);
    var b := s[w..];
    gap := s[..w];
    MatchBoldSound(b);
    assert s == gap + b;
  }

  /** What `MatchBold` accepts: `**title**` with a star-free title, then the rest. */
  lemma MatchBoldSound(b: string)
    requires MatchBold(b).Some?
    ensures var (title, rest) := MatchBold(b).value;
            |title| >= 1 && '*' !in title && b == "**" + title + "**" + rest
  {
    var n := SpanNonStar(b[2..]);
    var title, rest := b[2..n + 2], b[n + 4..];
    assert forall i :: 0 <= i < |title| ==> title[i] == b[2..][i];
    assert b == "**" + title + "**" + rest;
  }

  /** A string is its prefix, one character and its suffix. */
  lemma CutAt(s: string, d: nat)
    requires d < |s|
    ensures s == s[..d] + [s[d]] + s[d + 1..]
  {
  }

  /** Regrouping a concatenation of seven pieces after its second piece. */
  lemma Regroup(a: string, b: string, c: string, d: string, e: string, f: string, g: string)
    ensures a + b + c + d + e + f + g == a + b + (c + d + e + f + g)
  {
  }

  /** A line the heading matcher accepts: its leading digits, the dot, and the tail that
      `MatchGapBold` accepts with the captured title. */
  lemma HeaderPrefix(line: string) returns (digits: string, tail: string)
    requires MatchHeader(line).Some?
    ensures |digits| >= 1 && AllDigits(digits)
    ensures line == digits + "." + tail
    ensures MatchGapBold(tail).Some? && MatchGapBold(tail).value.0 == MatchHeader(line).value
  {
    var d := SpanDigits(line);
    tail := line[d + 1..];
    digits := line[..d];
    assert AllDigits(digits) by {
      assert forall i :: 0 <= i < d ==> digits[i] == line[i];
    }
    CutAt(line, d);
  }

  /** Reassembling a heading line from its pieces. */
  lemma AssembleHeader(line: string, digits: string, tail: string, gap: string, title: string, rest: string)
    requires line == digits + "." + tail && tail == gap + "**" + title + "**" + rest
    ensures line == digits + "." + gap + "**" + title + "**" + rest
  {
    Regroup(digits, ".", gap, "**", title, "**", rest);
  }

  /** Every line the heading matcher accepts has the heading shape, with the captured title. */
  lemma HeaderMatchSound(line: string) returns (digits: string, gap: string, rest: string)
    requires MatchHeader(line).Some?
    ensures HeaderShape(line, digits, gap, MatchHeader(line).value, rest)
  {
    var tail;
    digits, tail := HeaderPrefix(line);
    gap := MatchGapBoldSound(tail);
    var title := MatchGapBold(tail).value.0;
    rest := MatchGapBold(tail).value.1;
    AssembleHeader(line, digits, tail, gap, title, rest);
  }

  /** Every line of the titled-bullet shape is matched, with its title captured. */
  lemma TitledBulletMatchComplete(lead: string, gap: string, title: string, rest: string)
    requires AllSpace(lead)
    requires |gap| >= 1 && AllSpace(gap)
    requires |title| >= 1 && '*' !in title
    ensures MatchTitledBullet(lead + "-" + gap + "**" + title + "**:" + rest) == Some(title)
  {
    var tail := gap + "**" + title + "**" + (":" + rest);
    var s := "-" + tail;
    var line := lead + "-" + gap + "**" + title + "**:" + rest;
    assert line == lead + s;
    assert forall i :: 0 <= i < |lead| ==> line[i] == lead[i];
    assert line[|lead|] == '-';
    LeadingSpacesAt(line, |lead|);
    assert line[|lead|..] == s;
    assert s[1..] == tail;
    MatchGapBoldOf(gap, title, ":" + rest);
  }

  /** Reassembling a dash-title match from its pieces. */
  lemma AssembleDashTitle(s: string, tail: string, gap: string, title: string, after: string, rest: string)
    requires s == "-" + tail && tail == gap + "**" + title + "**" + after && after == ":" + rest
    ensures s == "-" + gap + "**" + title + "**:" + rest
  {
    assert s == "-" + (gap + "**" + title + "**" + (":" + rest));
  }

  /** Reassembling a titled-bullet line from its leading white space and the rest. */
  lemma AssembleTitledBullet(line: string, lead: string, s: string, gap: string, title: string, rest: string)
    requires line == lead + s && s == "-" + gap + "**" + title + "**:" + rest
    ensures line == lead + "-" + gap + "**" + title + "**:" + rest
  {
  }

  /** What `MatchDashTitle` accepts: a dash, white space, `**title**:` and the rest. */
  lemma MatchDashTitleSound(s: string) returns (gap: string, rest: string)
    requires MatchDashTitle(s).Some?
    ensures |gap| >= 1 && AllSpace(gap)
    ensures var title := MatchDashTitle(s).value;
            |title| >= 1 && '*' !in title && s == "-" + gap + "**" + title + "**:" + rest
  {
    var tail, after := DashTitlePrefix(s);
    gap := MatchGapBoldSound(tail);
    var title := MatchGapBold(tail).value.0;
    rest := after[1..];
    CutAt(after, 0);
    AssembleDashTitle(s, tail, gap, title, after, rest);
  }

  /** A string `MatchDashTitle` accepts: the dash, and the tail that `MatchGapBold` accepts
      with the captured title and a rest starting with a colon. */
  lemma DashTitlePrefix(s: string) returns (tail: string, after: string)
    requires MatchDashTitle(s).Some?
    ensures s == "-" + tail
    ensures MatchGapBold(tail) == Some((MatchDashTitle(s).value, after))
    ensures |after| >= 1 && after[0] == ':'
  {
    tail := s[1..];
    after := MatchGapBold(tail).value.1;
    CutAt(s, 0);
  }

  /** A string is its leading white space followed by the rest. */
  lemma LeadingSpacePrefix(s: string)
    ensures AllSpace(s[..LeadingSpaces(s)])
    ensures s == s[..LeadingSpaces(s)] + s[LeadingSpaces(s)..]
  {
    var a := LeadingSpaces(s);
    assert forall i :: 0 <= i < a ==> s[..a][i] == s[i];
  }

  /** Every line the titled-bullet matcher accepts has the titled-bullet shape. */
  lemma TitledBulletMatchSound(line: string) returns (lead: string, gap: string, rest: string)
    requires MatchTitledBullet(line).Some?
    ensures TitledBulletShape(line, lead, gap, MatchTitledBullet(line).value, rest)
  {
    var a := LeadingSpaces(line);
    var s := line[a..];
    gap, rest := MatchDashTitleSound(s);
    var title := MatchDashTitle(s).value;
    lead := line[..a];
    LeadingSpacePrefix(line);
    AssembleTitledBullet(line, lead, s, gap, title, rest);
  }

  /** The nested-bullet branch of the parser can never be taken: every line the nested-bullet
      pattern accepts is accepted first, with the same title, by the titled-bullet pattern. */
  lemma NestedBranchUnreachable(line: string)
    ensures MatchNestedBullet(line).Some? ==> MatchTitledBullet(line) == MatchNestedBullet(line)
  {
  }

  /** Every line of the titled-bullet shape with at least one leading white-space character
      is matched by the nested-bullet pattern, with its title captured. */
  lemma NestedBulletMatchComplete(lead: string, gap: string, title: string, rest: string)
    requires |lead| >= 1 && AllSpace(lead)
    requires |gap| >= 1 && AllSpace(gap)
    requires |title| >= 1 && '*' !in title
    ensures MatchNestedBullet(lead + "-" + gap + "**" + title + "**:" + rest) == Some(title)
  {
    var line := lead + "-" + gap + "**" + title + "**:" + rest;
    TitledBulletMatchComplete(lead, gap, title, rest);
    assert line[0] == lead[0];
  }

  /** Every line the nested-bullet matcher accepts has the titled-bullet shape with at least
      one leading white-space character. */
  lemma NestedBulletMatchSound(line: string) returns (lead: string, gap: string, rest: string)
    requires MatchNestedBullet(line).Some?
    ensures |lead| >= 1 && TitledBulletShape(line, lead, gap, MatchNestedBullet(line).value, rest)
  {
    NestedBranchUnreachable(line);
    lead, gap, rest := TitledBulletMatchSound(line);
  }

  /** What `StripDashPrefix` removes is a `^\s*-\s+` prefix: white space, a dash and at least
      one white-space character, after which no white space is left; a line without such a
      prefix is returned unchanged. */
  lemma StripDashPrefixSound(line: string) returns (lead: string, gap: string)
    ensures StripDashPrefix(line) != line ==>
              AllSpace(lead) && |gap| >= 1 && AllSpace(gap)
              && line == lead + "-" + gap + StripDashPrefix(line)
              && (StripDashPrefix(line) == [] || !IsSpace(StripDashPrefix(line)[0]))
  {
    var a := LeadingSpaces(line);
    LeadingSpacePrefix(line);
    lead, gap := line[..a], [];
    if a < |line| && line[a] == '-' {
      var t := line[a + 1..];
      var w := LeadingSpaces(t);
      if w >= 1 {
        LeadingSpacePrefix(t);
        gap := t[..w];
        CutDash(line, a, t, w);
      }
    }
  }

  /** A dash not followed by white space, as in `-x`, is not a `^\s*-\s+` prefix: the line
      is left unchanged. */
  lemma StripDashWithoutGap(lead: string, text: string)
    requires AllSpace(lead)
    requires text == [] || !IsSpace(text[0])
    ensures StripDashPrefix(lead + "-" + text) == lead + "-" + text
  {
    var line := lead + "-" + text;
    assert forall i :: 0 <= i < |lead| ==> line[i] == lead[i];
    assert line[|lead|] == '-';
    LeadingSpacesAt(line, |lead|);
    assert line[|lead| + 1..] == text;
    LeadingSpacesAt(text, 0);
  }

  /** A line cut around the dash at index `a` and after `w` more characters. */
  lemma CutDash(line: string, a: nat, t: string, w: nat)
    requires a < |line| && line[a] == '-' && t == line[a + 1..] && w <= |t|
    ensures line == line[..a] + "-" + t[..w] + t[w..]
  {
    assert line == line[..a] + [line[a]] + t;
    assert t == t[..w] + t[w..];
  }

  // ---------------------------------------------------------------------------------------
  // Line classification

  /** What a line is, in the parser's order of precedence. The nested-bullet pattern does not
      appear: see `NestedBranchUnreachable`. */
  datatype LineKind =
    | HeaderLine(title: string)
    | TitledBulletLine(title: string)
    | DashLine(text: string)
    | PlainLine(text: string)

  /** `line.replace(/^\s*-\s+/, "")`. */
  function StripDashPrefix(line: string): (r: string)
    ensures |r| <= |line| && r == line[|line| - |r|..]
  {
    var a := LeadingSpaces(line);
    if a < |line| && line[a] == '-' then
      var w := LeadingSpaces(line[a + 1..]);
      if w >= 1 then line[a + 1 + w..] else line
    else line
  }

  predicate StartsWithDash(s: string) {
    |s| >= 1 && s[0] == '-'
  }

  /** Every text a line kind carries has been trimmed. */
  predicate KindTrimmed(k: LineKind) {
    match k
    case HeaderLine(t) => Trimmed(t)
    case TitledBulletLine(t) => Trimmed(t)
    case DashLine(t) => Trimmed(t)
    case PlainLine(t) => Trimmed(t)
  }

  /** The kind of a line, in the order the parser tests the patterns; the texts it carries
      are trimmed, and a plain line carries text unless it is blank. */
  function Classify(line: string): (k: LineKind)
    ensures KindTrimmed(k)
    ensures k.PlainLine? ==> (k.text == [] <==> AllSpace(line))
  {
    match MatchHeader(line)
    case Some(title) => HeaderLine(Trim(title))
    case None =>
      match MatchTitledBullet(line)
      case Some(title) => TitledBulletLine(Trim(title))
      case None =>
        if StartsWithDash(Trim(line)) then DashLine(Trim(StripDashPrefix(line)))
        else PlainLine(Trim(line))
  }

  /** The kind of a line in terms of the matchers, case by case. */
  lemma ClassifyCases(line: string)
    ensures MatchHeader(line).Some? ==> Classify(line) == HeaderLine(Trim(MatchHeader(line).value))
    ensures MatchHeader(line).None? && MatchTitledBullet(line).Some? ==>
              Classify(line) == TitledBulletLine(Trim(MatchTitledBullet(line).value))
    ensures MatchHeader(line).None? && MatchTitledBullet(line).None? && StartsWithDash(Trim(line)) ==>
              Classify(line) == DashLine(Trim(StripDashPrefix(line)))
    ensures MatchHeader(line).None? && MatchTitledBullet(line).None? && !StartsWithDash(Trim(line)) ==>
              Classify(line) == PlainLine(Trim(line))
  {
  }

  // ---------------------------------------------------------------------------------------
  // The reference definition

  /** The parse so far: the sections already emitted and the open section, if any. */
  datatype ParseState = ParseState(done: seq<Section>, open: Option<Section>)

  const Start := ParseState([], None)

  function Emitted(open: Option<Section>): seq<Section>
  {
    match open
    case None => []
    case Some(s) => [s]
  }

  /** The index of the last bullet node of a section body, if it has one. */
  function LastBullet(content: seq<ContentNode>): (k: Option<nat>)
    ensures k.Some? ==> k.value < |content| && content[k.value].Bullet?
    ensures k.Some? ==> forall j :: k.value < j < |content| ==> !content[j].Bullet?
    ensures k.None? ==> forall j :: 0 <= j < |content| ==> !content[j].Bullet?
  {
    if content == [] then None
    else if content[|content| - 1].Bullet? then Some(|content| - 1)
    else LastBullet(content[..|content| - 1])
  }

  /** Appending a node makes it the last bullet if it is one, and leaves the last bullet
      alone otherwise. */
  lemma LastBulletAppend(content: seq<ContentNode>, node: ContentNode)
    ensures LastBullet(content + [node]) == if node.Bullet? then Some(|content|) else LastBullet(content)
  {
    assert (content + [node])[..|content|] == content;
  }

  /** Two bodies whose nodes are bullets at the same places have the same last bullet. */
  lemma LastBulletByKinds(c1: seq<ContentNode>, c2: seq<ContentNode>)
    requires |c1| == |c2|
    requires forall j :: 0 <= j < |c1| ==> c1[j].Bullet? == c2[j].Bullet?
    ensures LastBullet(c1) == LastBullet(c2)
  {
    var k1, k2 := LastBullet(c1), LastBullet(c2);
    assert k1.Some? ==> c2[k1.value].Bullet?;
    assert k2.Some? ==> c1[k2.value].Bullet?;
  }

  /** The body with `point` appended to the points of the list node at index `k`; any other
      body is returned unchanged. */
  function AddPoint(content: seq<ContentNode>, k: nat, point: string): (r: seq<ContentNode>)
    ensures |r| == |content|
    ensures forall j :: 0 <= j < |r| ==> r[j].Bullet? == content[j].Bullet? && r[j].Nested? == content[j].Nested?
    ensures forall j :: 0 <= j < |r| && j != k ==> r[j] == content[j]
    ensures k < |content| && !content[k].Text? ==>
              r[k].title == content[k].title && r[k].points == content[k].points + [point]
  {
    if k < |content| && !content[k].Text? then content[k := content[k].(points := content[k].points + [point])]
    else content
  }

  /** Where a plain dash line goes inside an open section: into the open bullet list (the
      last bullet node), or else as a text node at the end. */
  function AttachPoint(content: seq<ContentNode>, point: string): seq<ContentNode>
  {
    match LastBullet(content)
    case Some(k) => AddPoint(content, k, point)
    case None => content + [Text(point)]
  }

  /** The effect of one line of the given kind. */
  function Step(st: ParseState, kind: LineKind): (next: ParseState)
    ensures st.done <= next.done && |next.done| <= |st.done| + 1
    ensures next.open.None? <==> st.open.None? && !kind.HeaderLine? && !kind.PlainLine?
  {
    match kind
    case HeaderLine(title) => ParseState(st.done + Emitted(st.open), Some(Section(title, [])))
    case TitledBulletLine(title) =>
      (match st.open
       case None => st
       case Some(s) => ParseState(st.done, Some(Section(s.title, s.content + [Bullet(title, [])]))))
    case DashLine(text) =>
      (match st.open
       case None => st
       case Some(s) => ParseState(st.done, Some(Section(s.title, AttachPoint(s.content, text)))))
    case PlainLine(text) =>
      match st.open
      case None => ParseState(st.done, Some(Section("Information", [Text(text)])))
      case Some(s) => ParseState(st.done, Some(Section(s.title, s.content + [Text(text)])))
  }

  /** One line of input. */
  function Feed(st: ParseState, line: string): ParseState
  {
    Step(st, Classify(line))
  }

  function Run(st: ParseState, lines: seq<string>): ParseState
    decreases |lines|
  {
    if lines == [] then st else Run(Feed(st, lines[0]), lines[1..])
  }

  /** Running from index `i` is feeding line `i`, then running from index `i + 1`. */
  lemma RunStep(st: ParseState, lines: seq<string>, i: nat)
    requires i < |lines|
    ensures Run(st, lines[i..]) == Run(Feed(st, lines[i]), lines[i + 1..])
  {
    assert lines[i..][1..] == lines[i + 1..];
  }

  function Finish(st: ParseState): seq<Section>
  {
    st.done + Emitted(st.open)
  }

  /** `lines.filter(line => line.trim())`: the lines that are not blank, in order. */
  function NonBlankLines(lines: seq<string>): (r: seq<string>)
    ensures |r| <= |lines|
  {
    if lines == [] then []
    else (if Trim(lines[0]) != "" then [lines[0]] else []) + NonBlankLines(lines[1..])
  }

  /** The filter keeps exactly the lines that are not blank. */
  lemma {:induction false} NonBlankLinesMembers(lines: seq<string>)
    ensures forall l <- NonBlankLines(lines) :: l in lines && Trim(l) != ""
    ensures forall l <- lines :: Trim(l) != "" ==> l in NonBlankLines(lines)
  {
    if lines != [] {
      var head := if Trim(lines[0]) != "" then [lines[0]] else [];
      var rest := NonBlankLines(lines[1..]);
      NonBlankLinesMembers(lines[1..]);
      assert NonBlankLines(lines) == head + rest;
      assert forall l <- lines[1..] :: l in lines;
      assert forall l <- lines :: l == lines[0] || l in lines[1..];
    }
  }

  /** The sections of an answer, as the reference definition has them. */
  function Parse(answer: string): (sections: seq<Section>)
    ensures Trim(answer) == "" ==> sections == []
  {
    if Trim(answer) == "" then []
    else Finish(Run(Start, NonBlankLines(SplitLines(answer))))
  }

  // ---------------------------------------------------------------------------------------
  // The parser as the application runs it

  /** The parser's accumulators: the sections emitted so far, the open section, and the
      open bullet and nested lists as indexes into the open section's body. */
  datatype Cursor = Cursor(sections: seq<Section>, current: Option<Section>, bullet: Option<nat>, nested: Option<nat>)

  /** The open bullet list is the last bullet node of the open section, and no nested list is
      ever open (see `NestedBranchUnreachable`). */
  predicate Coherent(c: Cursor) {
    && c.nested == None
    && c.bullet == (match c.current case None => None case Some(s) => LastBullet(s.content))
  }

  /** The reference state a cursor stands for. */
  function StateOf(c: Cursor): ParseState
  {
    ParseState(c.sections, c.current)
  }

  /** The body of the parser's loop: one non-blank line, already classified, read into the
      accumulators. The tests of the source's if-chain are `Classify`; its nested-bullet branch
      is never taken (`NestedBranchUnreachable`) and has no counterpart here. */
  method ParseLine(c: Cursor, kind: LineKind) returns (d: Cursor)
    requires Coherent(c)
    ensures Coherent(d)
    ensures StateOf(d) == Step(StateOf(c), kind)
  {
    d := c;
    match kind {
      case HeaderLine(title) =>
        match c.current {
          case Some(s) => d := d.(sections := c.sections + [s]);
          case None =>
        }
        d := d.(current := Some(Section(title, [])), bullet := None, nested := None);
      case TitledBulletLine(title) =>
        match c.current {
          case Some(s) =>
            LastBulletAppend(s.content, Bullet(title, []));
            d := Cursor(c.sections, Some(s.(content := s.content + [Bullet(title, [])])), Some(|s.content|), None);
          case None =>
        }
      case DashLine(text) =>
        match (c.nested, c.bullet, c.current) {
          case (Some(k), _, Some(s)) =>
            d := d.(current := Some(s.(content := AddPoint(s.content, k, text))));
          case (None, Some(k), Some(s)) =>
            LastBulletByKinds(s.content, AddPoint(s.content, k, text));
            d := d.(current := Some(s.(content := AddPoint(s.content, k, text))));
          case (None, None, Some(s)) =>
            LastBulletAppend(s.content, Text(text));
            d := d.(current := Some(s.(content := s.content + [Text(text)])));
          case (_, _, None) =>
        }
      case PlainLine(text) =>
        match c.current {
          case Some(s) =>
            LastBulletAppend(s.content, Text(text));
            d := d.(current := Some(s.(content := s.content + [Text(text)])));
          case None =>
            d := d.(current := Some(Section("Information", [Text(text)])));
        }
    }
  }

  /** The answer split into sections by one pass over its non-blank lines. */
  method ParseAnswerIntoSections(answer: string) returns (sections: seq<Section>)
    ensures sections == Parse(answer)
  {
    if Trim(answer) == "" {
      return [];
    }
    var lines := NonBlankLines(SplitLines(answer));
    var cur := Cursor([], None, None, None);
    for i := 0 to |lines|
      invariant Coherent(cur)
      invariant Run(StateOf(cur), lines[i..]) == Run(Start, lines)
    {
      RunStep(StateOf(cur), lines, i);
      cur := ParseLine(cur, Classify(lines[i]));
    }
    sections := cur.sections;
    match cur.current
    case Some(s) => sections := sections + [s];
    case None =>
  }

  // ---------------------------------------------------------------------------------------
  // What the parser promises

  /** Every line of an all-white-space text is all white space. */
  lemma {:induction false} SplitLinesOfSpace(s: string)
    requires AllSpace(s)
    ensures forall l <- SplitLines(s) :: AllSpace(l)
  {
    if s != [] {
      assert AllSpace(s[1..]) by {
        assert forall i :: 0 <= i < |s| - 1 ==> s[1..][i] == s[i + 1];
      }
      SplitLinesOfSpace(s[1..]);
      var rest := SplitLines(s[1..]);
      if s[0] != '\n' {
        assert rest[0] in rest;
        var first := [s[0]] + rest[0];
        assert AllSpace(first) by {
          assert forall i :: 1 <= i < |first| ==> first[i] == rest[0][i - 1];
        }
        assert forall l <- rest[1..] :: l in rest;
      }
    }
  }

  /** The filter drops every line of white space. */
  lemma {:induction false} NonBlankLinesOfBlank(lines: seq<string>)
    requires forall l <- lines :: AllSpace(l)
    ensures NonBlankLines(lines) == []
  {
    if lines != [] {
      assert lines[0] in lines;
      assert forall l <- lines[1..] :: l in lines;
      NonBlankLinesOfBlank(lines[1..]);
    }
  }

  /** The early return for a blank answer changes nothing: the lines of a blank answer are all
      blank, the filter drops them all, and a run over no lines emits no section. */
  lemma EarlyReturnIsRedundant(answer: string)
    ensures Parse(answer) == Finish(Run(Start, NonBlankLines(SplitLines(answer))))
  {
    if Trim(answer) == "" {
      SplitLinesOfSpace(answer);
      NonBlankLinesOfBlank(SplitLines(answer));
    }
  }

  /** A single line passes the filter exactly when it is not blank. */
  lemma NonBlankLinesSingle(line: string)
    ensures NonBlankLines([line]) == if AllSpace(line) then [] else [line]
  {
    assert [line][1..] == [];
  }

  /** The filter of non-blank lines distributes over concatenation. */
  lemma {:induction false} NonBlankLinesAppend(a: seq<string>, b: seq<string>)
    ensures NonBlankLines(a + b) == NonBlankLines(a) + NonBlankLines(b)
  {
    if a == [] {
      assert a + b == b;
    } else {
      assert (a + b)[0] == a[0];
      assert (a + b)[1..] == a[1..] + b;
      NonBlankLinesAppend(a[1..], b);
      var x := if Trim(a[0]) != "" then [a[0]] else [];
      assert x + (NonBlankLines(a[1..]) + NonBlankLines(b)) == (x + NonBlankLines(a[1..])) + NonBlankLines(b);
    }
  }

  /** The filter drops an inserted blank line. */
  lemma NonBlankLinesInsert(lines: seq<string>, i: nat, blank: string)
    requires i <= |lines| && Trim(blank) == ""
    ensures NonBlankLines(lines[..i] + [blank] + lines[i..]) == NonBlankLines(lines)
  {
    var pre, post := lines[..i], lines[i..];
    assert lines == pre + post;
    assert NonBlankLines([blank]) == [] by {
      assert [blank][1..] == [];
    }
    NonBlankLinesAppend(pre, post);
    NonBlankLinesAppend(pre + [blank], post);
    NonBlankLinesAppend(pre, [blank]);
    assert NonBlankLines(pre + [blank]) == NonBlankLines(pre);
  }

  /** The sections of the text made of the given lines. */
  lemma ParseOfLines(lines: seq<string>)
    requires |lines| >= 1 && forall l <- lines :: '\n' !in l
    ensures Parse(JoinLines(lines)) == Finish(Run(Start, NonBlankLines(lines)))
  {
    SplitJoinLines(lines);
    EarlyReturnIsRedundant(JoinLines(lines));
  }

  /** Inserting a line without line feeds among lines without line feeds. */
  lemma InsertKeepsLines(lines: seq<string>, i: nat, blank: string)
    requires forall l <- lines :: '\n' !in l
    requires i <= |lines| && '\n' !in blank
    ensures forall l <- lines[..i] + [blank] + lines[i..] :: '\n' !in l
  {
    assert forall l <- lines[..i] + [blank] + lines[i..] :: l in lines || l == blank;
  }

  /** Blank lines make no difference: inserting a blank line anywhere among the lines of an
      answer leaves its sections unchanged. */
  lemma BlankLineIgnored(lines: seq<string>, i: nat, blank: string)
    requires |lines| >= 1 && forall l <- lines :: '\n' !in l
    requires i <= |lines| && AllSpace(blank) && '\n' !in blank
    ensures Parse(JoinLines(lines[..i] + [blank] + lines[i..])) == Parse(JoinLines(lines))
  {
    var longer := lines[..i] + [blank] + lines[i..];
    InsertKeepsLines(lines, i, blank);
    ParseOfLines(lines);
    ParseOfLines(longer);
    NonBlankLinesInsert(lines, i, blank);
  }

  /** The kinds of a sequence of lines. */
  function Kinds(lines: seq<string>): (ks: seq<LineKind>)
    ensures |ks| == |lines|
    ensures forall i :: 0 <= i < |lines| ==> ks[i] == Classify(lines[i])
  {
    if lines == [] then [] else [Classify(lines[0])] + Kinds(lines[1..])
  }

  /** The titles of the heading lines, in order. */
  function HeaderTitles(ks: seq<LineKind>): seq<string>
  {
    if ks == [] then []
    else (if ks[0].HeaderLine? then [ks[0].title] else []) + HeaderTitles(ks[1..])
  }

  /** A plain text line comes before the first heading line. */
  predicate LeadingText(ks: seq<LineKind>)
  {
    ks != [] && !ks[0].HeaderLine? && (ks[0].PlainLine? || LeadingText(ks[1..]))
  }

  function Titles(sections: seq<Section>): (ts: seq<string>)
    ensures |ts| == |sections|
    ensures forall i :: 0 <= i < |sections| ==> ts[i] == sections[i].title
  {
    if sections == [] then [] else [sections[0].title] + Titles(sections[1..])
  }

  lemma {:induction false} TitlesAppend(a: seq<Section>, b: seq<Section>)
    ensures Titles(a + b) == Titles(a) + Titles(b)
  {
  }

  /** The titles one line adds: its own for a heading, "Information" for plain text while no
      section is open, none otherwise; and whether a section is open afterwards. */
  lemma StepTitles(st: ParseState, kind: LineKind)
    ensures Titles(Finish(Step(st, kind))) ==
              Titles(Finish(st))
              + (if kind.HeaderLine? then [kind.title]
                 else if st.open.None? && kind.PlainLine? then ["Information"]
                 else [])
    ensures Step(st, kind).open.None? <==> st.open.None? && !kind.HeaderLine? && !kind.PlainLine?
  {
    var next := Step(st, kind);
    match kind
    case HeaderLine(t) =>
      assert Finish(next) == Finish(st) + [Section(t, [])];
      TitlesAppend(Finish(st), [Section(t, [])]);
    case PlainLine(t) =>
      if st.open.None? {
        assert Finish(next) == Finish(st) + [Section("Information", [Text(t)])];
        TitlesAppend(Finish(st), [Section("Information", [Text(t)])]);
      } else {
        assert Titles(Finish(next)) == Titles(Finish(st));
      }
    case _ =>
      assert Titles(Finish(next)) == Titles(Finish(st));
  }

  /** The titles of the sections a run emits, given the state it starts from. */
  lemma {:induction false} RunTitles(st: ParseState, lines: seq<string>)
    decreases |lines|
    ensures Titles(Finish(Run(st, lines))) ==
              Titles(Finish(st))
              + (if st.open.None? && LeadingText(Kinds(lines)) then ["Information"] else [])
              + HeaderTitles(Kinds(lines))
  {
    if lines != [] {
      var kind := Classify(lines[0]);
      var next := Step(st, kind);
      var ks := Kinds(lines[1..]);
      RunTitles(next, lines[1..]);
      StepTitles(st, kind);
      KindsCons(lines);
      TitlesCons(Titles(Finish(st)), kind, st.open.None?, LeadingText(ks), HeaderTitles(ks));
    }
  }

  /** The kinds of lines are the first line's kind, then the kinds of the others. */
  lemma KindsCons(lines: seq<string>)
    requires lines != []
    ensures Kinds(lines) == [Classify(lines[0])] + Kinds(lines[1..])
  {
  }

  /** The bookkeeping of one step of `RunTitles`, on the title sequences alone. */
  lemma TitlesCons(before: seq<string>, kind: LineKind, closed: bool, leading: bool, headers: seq<string>)
    ensures var added := if kind.HeaderLine? then [kind.title]
                         else if closed && kind.PlainLine? then ["Information"] else [];
            var closedAfter := closed && !kind.HeaderLine? && !kind.PlainLine?;
            (before + added) + (if closedAfter && leading then ["Information"] else []) + headers
            == before
               + (if closed && (!kind.HeaderLine? && (kind.PlainLine? || leading)) then ["Information"] else [])
               + ((if kind.HeaderLine? then [kind.title] else []) + headers)
  {
  }

  /** The sections of an answer are titled, in order, by its headings, preceded by a section
      "Information" exactly when a plain text line comes before the first heading; titled and
      plain bullets before the first heading are dropped. */
  lemma SectionTitles(answer: string)
    ensures var ks := Kinds(NonBlankLines(SplitLines(answer)));
            Titles(Parse(answer)) == (if LeadingText(ks) then ["Information"] else []) + HeaderTitles(ks)
  {
    EarlyReturnIsRedundant(answer);
    RunTitles(Start, NonBlankLines(SplitLines(answer)));
  }

  /** A body node as the parser builds it: a text or a titled bullet list (never a nested
      list), with every text trimmed. */
  predicate NodeWellFormed(n: ContentNode) {
    match n
    case Text(t) => Trimmed(t)
    case Bullet(t, ps) => Trimmed(t) && forall p <- ps :: Trimmed(p)
    case Nested(_, _) => false
  }

  predicate SectionWellFormed(s: Section) {
    Trimmed(s.title) && forall n <- s.content :: NodeWellFormed(n)
  }

  predicate StateWellFormed(st: ParseState) {
    (forall s <- st.done :: SectionWellFormed(s))
    && match st.open case None => true case Some(s) => SectionWellFormed(s)
  }

  /** One line keeps the state well formed. */
  lemma StepWellFormed(st: ParseState, kind: LineKind)
    requires StateWellFormed(st) && KindTrimmed(kind)
    ensures StateWellFormed(Step(st, kind))
  {
    if kind.DashLine? && st.open.Some? {
      var t, s := kind.text, st.open.value;
      match LastBullet(s.content)
      case Some(k) =>
        var c := AddPoint(s.content, k, t);
        assert forall j :: 0 <= j < |c| ==> NodeWellFormed(c[j]) by {
          forall j | 0 <= j < |c| ensures NodeWellFormed(c[j]) {
            assert s.content[j] in s.content;
            if j == k {
              assert forall p <- c[j].points :: p in s.content[j].points || p == t;
            } else {
              assert c[j] == s.content[j];
            }
          }
        }
      case None =>
    }
  }

  lemma {:induction false} RunWellFormed(st: ParseState, lines: seq<string>)
    requires StateWellFormed(st)
    ensures StateWellFormed(Run(st, lines))
    decreases |lines|
  {
    if lines != [] {
      StepWellFormed(st, Classify(lines[0]));
      RunWellFormed(Feed(st, lines[0]), lines[1..]);
    }
  }

  /** Every section of an answer has a trimmed title and a body of trimmed texts and titled
      bullet lists of trimmed points; no nested list ever appears. */
  lemma ParseWellFormed(answer: string)
    ensures forall s <- Parse(answer) :: SectionWellFormed(s)
  {
    if Trim(answer) != "" {
      var st := Run(Start, NonBlankLines(SplitLines(answer)));
      RunWellFormed(Start, NonBlankLines(SplitLines(answer)));
      assert forall s <- Finish(st) :: s in st.done || st.open == Some(s);
    }
  }

  // ---------------------------------------------------------------------------------------
  // Worked examples

  /** A line of white space is a plain line with no text. */
  lemma BlankLineKind(line: string)
    requires AllSpace(line)
    ensures Classify(line) == PlainLine("")
  {
    LeadingSpacesAt(line, |line|);
    assert line[|line|..] == [];
    if line != [] {
      assert !IsDigit(line[0]);
    }
  }

  /** A line whose first character is not a digit is never a heading. */
  lemma NoHeaderWithoutDigit(line: string)
    requires |line| >= 1 && !IsDigit(line[0])
    ensures MatchHeader(line) == None
  {
    assert SpanDigits(line) == 0;
  }

  /** Every line of the heading shape is a heading whose title is the bold text, trimmed; a
      bold title of white space gives the empty title. */
  lemma ClassifyHeader(digits: string, gap: string, title: string, rest: string)
    requires |digits| >= 1 && AllDigits(digits)
    requires |gap| >= 1 && AllSpace(gap)
    requires |title| >= 1 && '*' !in title
    ensures Classify(digits + "." + gap + "**" + title + "**" + rest) == HeaderLine(Trim(title))
    ensures AllSpace(title) ==> Classify(digits + "." + gap + "**" + title + "**" + rest) == HeaderLine("")
  {
    HeaderMatchComplete(digits, gap, title, rest);
    ClassifyCases(digits + "." + gap + "**" + title + "**" + rest);
  }

  /** A line of the titled-bullet shape starts with white space or a dash. */
  lemma TitledBulletFirstChar(lead: string, gap: string, title: string, rest: string)
    requires AllSpace(lead)
    ensures var line := lead + "-" + gap + "**" + title + "**:" + rest;
            |line| >= 1 && !IsDigit(line[0])
  {
    var line := lead + "-" + gap + "**" + title + "**:" + rest;
    if lead != [] {
      assert line[0] == lead[0];
    } else {
      assert line[0] == '-';
    }
  }

  /** Every line of the titled-bullet shape, indented or not, is a titled bullet and never a
      heading: the indented form is not a nested list. */
  lemma ClassifyTitledBullet(lead: string, gap: string, title: string, rest: string)
    requires AllSpace(lead)
    requires |gap| >= 1 && AllSpace(gap)
    requires |title| >= 1 && '*' !in title
    ensures Classify(lead + "-" + gap + "**" + title + "**:" + rest) == TitledBulletLine(Trim(title))
  {
    var line := lead + "-" + gap + "**" + title + "**:" + rest;
    TitledBulletFirstChar(lead, gap, title, rest);
    NoHeaderWithoutDigit(line);
    TitledBulletMatchComplete(lead, gap, title, rest);
    ClassifyCases(line);
  }

  /** Removing `^\s*-\s+` from white space, a dash, white space and a text leaves the text. */
  lemma StripDashPrefixOf(lead: string, gap: string, text: string)
    requires AllSpace(lead)
    requires |gap| >= 1 && AllSpace(gap)
    requires text == [] || !IsSpace(text[0])
    ensures StripDashPrefix(lead + "-" + gap + text) == text
  {
    var tail := gap + text;
    var line := lead + "-" + gap + text;
    assert line == lead + ("-" + tail);
    assert forall i :: 0 <= i < |lead| ==> line[i] == lead[i];
    assert line[|lead|] == '-';
    LeadingSpacesAt(line, |lead|);
    assert line[|lead| + 1..] == tail;
    assert forall i :: 0 <= i < |gap| ==> tail[i] == gap[i];
    LeadingSpacesAt(tail, |gap|);
    assert tail[|gap|..] == text;
    assert line[|lead| + 1 + |gap|..] == text;
  }

  /** A plain bullet that is not a titled one is a dash line carrying its text, without the
      dash and the white space around it. */
  lemma ClassifyDashLine(lead: string, gap: string, text: string)
    requires AllSpace(lead)
    requires |gap| >= 1 && AllSpace(gap)
    requires text == [] || !IsSpace(text[0])
    requires MatchTitledBullet(lead + "-" + gap + text) == None
    ensures Classify(lead + "-" + gap + text) == DashLine(Trim(text))
  {
    var line := lead + "-" + gap + text;
    assert line == lead + "-" + (gap + text);
    assert forall i :: 0 <= i < |lead| ==> line[i] == lead[i];
    assert line[|lead|] == '-';
    if lead != [] {
      assert line[0] == lead[0];
    }
    NoHeaderWithoutDigit(line);
    var k := TrimIsPadded(line);
    assert !AllSpace(line);
    assert k == |lead| && Trim(line)[0] == line[k];
    StripDashPrefixOf(lead, gap, text);
    ClassifyCases(line);
  }

  /** A line of the titled-bullet shape starts with a dash once trimmed. */
  lemma TitledBulletStartsWithDash(line: string)
    requires MatchTitledBullet(line).Some?
    ensures StartsWithDash(Trim(line))
  {
    var lead, gap, rest := TitledBulletMatchSound(line);
    assert forall i :: 0 <= i < |lead| ==> line[i] == lead[i];
    assert line[|lead|] == '-';
    var k := TrimIsPadded(line);
    assert !AllSpace(line);
    assert k == |lead| && Trim(line)[0] == line[k];
  }

  /** A line that does not start with a digit and does not start with a dash once trimmed is
      plain text, carrying the whole line trimmed. */
  lemma ClassifyPlain(line: string)
    requires line == [] || !IsDigit(line[0])
    requires !StartsWithDash(Trim(line))
    ensures Classify(line) == PlainLine(Trim(line))
  {
    if line != [] {
      NoHeaderWithoutDigit(line);
    }
    if MatchTitledBullet(line).Some? {
      TitledBulletStartsWithDash(line);
    }
    ClassifyCases(line);
  }

  /** Lines none of which is blank all pass the filter. */
  lemma {:induction false} NonBlankLinesKeepsAll(lines: seq<string>)
    requires forall l <- lines :: Classify(l) != PlainLine("")
    ensures NonBlankLines(lines) == lines
  {
    if lines != [] {
      var head, tail := lines[0], lines[1..];
      assert head in lines;
      if AllSpace(head) {
        BlankLineKind(head);
      }
      assert forall l <- tail :: l in lines;
      NonBlankLinesKeepsAll(tail);
      HeadTail(lines);
    }
  }

  /** A non-empty sequence is its first element followed by the others. */
  lemma HeadTail<T>(s: seq<T>)
    requires s != []
    ensures s == [s[0]] + s[1..]
  {
  }

  /** A run over lines whose kinds are already known. */
  function RunKinds(st: ParseState, ks: seq<LineKind>): ParseState
    decreases |ks|
  {
    if ks == [] then st else RunKinds(Step(st, ks[0]), ks[1..])
  }

  /** A run over lines is a run over their kinds. */
  lemma {:induction false} RunByKinds(st: ParseState, lines: seq<string>)
    ensures Run(st, lines) == RunKinds(st, Kinds(lines))
    decreases |lines|
  {
    if lines != [] {
      RunByKinds(Feed(st, lines[0]), lines[1..]);
      assert Kinds(lines)[1..] == Kinds(lines[1..]);
    }
  }

  lemma AddPointToFirst(bt: string, tt: string, pt: string)
    ensures AddPoint([Bullet(bt, []), Text(tt)], 0, pt) == [Bullet(bt, [pt]), Text(tt)]
  {
    assert [] + [pt] == [pt];
  }

  /** A plain bullet goes to the last titled bullet of its section even when a text line came
      in between: the open bullet list is the one appended last, not the last node. */
  lemma BulletAfterText(a: string, bt: string, tt: string, pt: string)
    ensures Finish(RunKinds(Start, [HeaderLine(a), TitledBulletLine(bt), PlainLine(tt), DashLine(pt)]))
            == [Section(a, [Bullet(bt, [pt]), Text(tt)])]
  {
    var ks := [HeaderLine(a), TitledBulletLine(bt), PlainLine(tt), DashLine(pt)];
    var s1 := ParseState([], Some(Section(a, [])));
    var s2 := ParseState([], Some(Section(a, [Bullet(bt, [])])));
    var s3 := ParseState([], Some(Section(a, [Bullet(bt, []), Text(tt)])));
    assert [] + [Bullet(bt, [])] == [Bullet(bt, [])];
    assert [Bullet(bt, [])] + [Text(tt)] == [Bullet(bt, []), Text(tt)];
    assert LastBullet(s3.open.value.content) == Some(0);
    AddPointToFirst(bt, tt, pt);
    assert ks[1..] == [TitledBulletLine(bt), PlainLine(tt), DashLine(pt)];
    assert ks[1..][1..] == [PlainLine(tt), DashLine(pt)];
    assert ks[1..][1..][1..] == [DashLine(pt)];
    assert Step(Start, HeaderLine(a)) == s1;
    assert Step(s1, TitledBulletLine(bt)) == s2;
    assert Step(s2, PlainLine(tt)) == s3;
    assert RunKinds(Start, ks) == RunKinds(s1, ks[1..]);
    assert RunKinds(s1, ks[1..]) == RunKinds(s2, ks[1..][1..]);
    assert RunKinds(s2, ks[1..][1..]) == RunKinds(s3, ks[1..][1..][1..]);
    assert ks[1..][1..][1..][1..] == [];
    assert RunKinds(s3, ks[1..][1..][1..]) == RunKinds(Step(s3, DashLine(pt)), []);
  }

  /** Titled and plain bullets before the first heading are dropped: no section holds them. */
  lemma OrphanBullets(bt: string, pt: string)
    ensures Finish(RunKinds(Start, [TitledBulletLine(bt), DashLine(pt)])) == []
  {
    var ks := [TitledBulletLine(bt), DashLine(pt)];
    assert ks[1..] == [DashLine(pt)] && ks[1..][1..] == [];
    assert RunKinds(Start, ks[1..]) == RunKinds(Start, ks[1..][1..]);
  }

  /** Text before the first heading opens a section titled "Information", which the heading
      then closes. */
  lemma InformationSection(tt: string, a: string)
    ensures Finish(RunKinds(Start, [PlainLine(tt), HeaderLine(a)]))
            == [Section("Information", [Text(tt)]), Section(a, [])]
  {
    var ks := [PlainLine(tt), HeaderLine(a)];
    var s1 := ParseState([], Some(Section("Information", [Text(tt)])));
    var s2 := ParseState([Section("Information", [Text(tt)])], Some(Section(a, [])));
    assert ks[1..] == [HeaderLine(a)] && ks[1..][1..] == [];
    assert RunKinds(Start, ks) == RunKinds(s1, ks[1..]);
    assert RunKinds(s1, ks[1..]) == RunKinds(s2, ks[1..][1..]);
  }

  /** The sections of an answer made of lines none of which is blank. */
  lemma ParseOfNonBlankLines(lines: seq<string>)
    requires |lines| >= 1 && (forall l <- lines :: '\n' !in l) && PlainLine("") !in Kinds(lines)
    ensures Parse(JoinLines(lines)) == Finish(RunKinds(Start, Kinds(lines)))
  {
    assert forall l <- lines :: Classify(l) != PlainLine("") by {
      forall l <- lines ensures Classify(l) != PlainLine("") {
        var i :| 0 <= i < |lines| && lines[i] == l;
        assert Kinds(lines)[i] == Classify(l);
      }
    }
    ParseOfLines(lines);
    NonBlankLinesKeepsAll(lines);
    RunByKinds(Start, lines);
  }
}
