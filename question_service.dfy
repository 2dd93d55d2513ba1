/** The question store: the list of questions with their answers, the case-insensitive search
    that narrows it, lookup by id, appending a generated answer under the next sequential id,
    and the page-by-page view of the search results. */
module QuestionService {
  import opened Wrappers
  import opened JsString

  datatype Status = Answered | Pending | Reviewed

  datatype Rating = Helpful | NotHelpful

  datatype Feedback = Feedback(rating: Option<Rating>, comment: string)

  datatype Question = Question(
    id: string,
    question: string,
    answer: string,
    timestamp: string,
    status: Status,
    feedback: Option<Feedback>)

  /** The number of questions on one page of search results. */
  const QuestionsPerPage: nat := 5

  /** The answers of the three seed questions. */
  const SeedAnswer1: string := "### Response Structure for Setting Up Converse Desk\n\n1. **Introduction**\n   - Setting up the Converse Desk involves configuring necessary settings in your Salesforce organization to ensure smooth functionality of SMS Magic.\n\n2. **Issue Analysis**\n   - **Function and Component**: The Converse Desk function relies mainly on configurations within Converse settings, sender ID assignments, and user permissions in Salesforce to manage incoming and outgoing messages. \n\n3. **Troubleshooting Steps**\n   - **Access Converse Settings**: \n     - Log in to your Salesforce account and navigate to SMS Magic Converse Home.\n     - Access the 'Converse Settings' section to configure the desk.\n   \n   - **Configuration of Notifications**:\n     - **Sound Notification**: Go to Conversations under General Settings of Converse Desk. Enable the 'Play sound for incoming message' to receive sound notifications.\n     - **Email Notification**: Ensure that email notifications for inbound messages in the Sender ID & Assignment section are turned on.\n   \n   - **Set Up Sender ID**:\n     - Go to the Sender ID & Assignment section within Converse Settings and use \"Add Sender ID\" to set up the required Sender IDs.\n\n   - **User Management**:\n     - Navigate to the User Management section within Converse Settings to add users and assign the necessary licenses.\n\n4. **Root Cause Analysis**\n   - Common issues arise due to improper assignment of sender IDs, incorrect notification settings, or insufficient user permissions.\n\n5. **Escalation and Handling**\n   - If you encounter persistent issues after these configurations, consider reaching out to SMS Magic support by emailing care@screen-magic.com for further assistance."
  const SeedAnswer2: string := "### Response Structure for Troubleshooting Integration Issues\n\n1. **Introduction**\n   - Integration issues with external systems can stem from various sources including authentication problems, data format mismatches, or network connectivity issues.\n\n2. **Issue Analysis**\n   - **Common Integration Points**: API endpoints, authentication tokens, data mapping configurations, and network settings are the most common areas where issues occur.\n\n3. **Troubleshooting Steps**\n   - **Verify Credentials**: \n     - Check that all API keys, usernames, passwords, and tokens are valid and not expired.\n     - Ensure that the integration user has appropriate permissions in both systems.\n   \n   - **Examine Logs**:\n     - Review system logs for error messages related to the integration.\n     - Check API call logs to see request/response details and identify failure points.\n   \n   - **Test Connectivity**:\n     - Use a tool like Postman to test API endpoints directly.\n     - Verify that firewalls and network settings allow communication between systems.\n\n   - **Data Validation**:\n     - Confirm that the data being sent matches the expected format and schema.\n     - Look for special characters or encoding issues that might be causing problems.\n\n4. **Root Cause Analysis**\n   - Integration problems typically stem from configuration mismatches, timeout issues, or changes in either system that weren't properly synchronized.\n\n5. **Escalation and Handling**\n   - If standard troubleshooting doesn't resolve the issue, engage vendor support for both systems and provide them with detailed logs and steps to reproduce the problem."
  const SeedAnswer3: string := "### Response Structure for Managing User Permissions\n\n1. **Introduction**\n   - Effective user permission management is crucial for maintaining system security while ensuring users can perform their required tasks efficiently.\n\n2. **Issue Analysis**\n   - **Permission Models**: Role-based access control (RBAC) vs. attribute-based access control (ABAC) approaches each have different strengths for different organizational needs.\n\n3. **Troubleshooting Steps**\n   - **Implement Least Privilege Principle**: \n     - Assign users only the permissions they need to perform their job functions.\n     - Regularly audit and remove unnecessary permissions.\n   \n   - **Use Role-Based Groups**:\n     - Create logical role groups instead of assigning permissions individually.\n     - Align roles with job functions rather than with specific individuals.\n   \n   - **Implement Approval Workflows**:\n     - Create documented processes for requesting and approving permission changes.\n     - Maintain an audit trail of who approved what changes and when.\n\n   - **Regular Auditing**:\n     - Schedule quarterly reviews of user permissions.\n     - Automate detection of unused permissions or dormant accounts.\n\n4. **Root Cause Analysis**\n   - Permission issues often arise from lack of proper offboarding processes, role changes without permission updates, or ad-hoc permission grants without documentation.\n\n5. **Escalation and Handling**\n   - For complex permission issues, involve both security and department managers to balance security needs with operational requirements."

  /** The store's initial content: three questions, numbered "1" to "3". */
  function InitialQuestions(): (qs: seq<Question>)
    ensures |qs| == 3
  {
    [ Question("1", "How do I set up the Converse Desk in Salesforce?", SeedAnswer1,
               "2025-04-15T14:30:00Z", Answered, None),
      Question("2", "How to troubleshoot integration issues with external systems?", SeedAnswer2,
               "2025-04-14T10:15:00Z", Reviewed, None),
      Question("3", "What are best practices for managing user permissions?", SeedAnswer3,
               "2025-04-13T16:45:00Z", Answered, None) ]
  }

  /** The first line of a generated answer, up to the question text. */
  const AnswerHead: string := "### Response Structure for "

  /** The rest of a generated answer, after the question text. */
  const AnswerTail: string := "\n\n1. **Introduction**\n   - This is an auto-generated response to your question.\n\n2. **Issue Analysis**\n   - **Function and Component**: In a real system, this would analyze your specific question.\n\n3. **Troubleshooting Steps**\n   - **Step 1**: This is where custom troubleshooting steps would be provided.\n   - **Step 2**: Additional steps would be shown here based on your specific question.\n\n4. **Root Cause Analysis**\n   - In a production environment, this would provide insights into the possible root causes.\n\n5. **Escalation and Handling**\n   - Recommendations for further action would be provided here."

  /** The canned answer generated for a new question; the question text ends its first line. */
  function GeneratedAnswer(question: string): (a: string)
    ensures AnswerHead + question <= a
  {
    AnswerHead + question + AnswerTail
  }

  /** `a` is `b` with some elements left out, the rest kept in order. */
  predicate IsSubsequence<T(==)>(a: seq<T>, b: seq<T>)
    decreases |b|
  {
    a == [] || (b != [] && ((a[0] == b[0] && IsSubsequence(a[1..], b[1..])) || IsSubsequence(a, b[1..])))
  }

  lemma {:induction false} SubsequenceRefl<T>(a: seq<T>)
    ensures IsSubsequence(a, a)
  {
    if a != [] {
      SubsequenceRefl(a[1..]);
    }
  }

  /** Every element of a subsequence is an element of the sequence it was taken from. */
  lemma {:induction false} SubsequenceMembers<T>(a: seq<T>, b: seq<T>)
    requires IsSubsequence(a, b)
    ensures forall x :: x in a ==> x in b
    decreases |b|
  {
    if a != [] {
      if a[0] == b[0] && IsSubsequence(a[1..], b[1..]) {
        SubsequenceMembers(a[1..], b[1..]);
        assert forall x :: x in a ==> x == a[0] || x in a[1..];
      } else {
        SubsequenceMembers(a, b[1..]);
      }
    }
  }

  /** A question matches a search term when its text, lower-cased, contains the lower-cased term. */
  predicate Matches(q: Question, term: string) {
    Includes(Lower(q.question), Lower(term))
  }

  /** `questions.filter(...)`: the questions matching `term`, in their original order. */
  function FilterQuestions(qs: seq<Question>, term: string): (r: seq<Question>)
    ensures IsSubsequence(r, qs)
    ensures forall q :: q in r <==> q in qs && Matches(q, term)
    ensures |r| <= |qs|
  {
    if qs == [] then []
    else
      var rest := FilterQuestions(qs[1..], term);
      assert forall q :: q in qs <==> q == qs[0] || q in qs[1..];
      if Matches(qs[0], term) then
        assert ([qs[0]] + rest)[1..] == rest;
        [qs[0]] + rest
      else rest
  }

  /** Filtering distributes over concatenation: together with filtering a single question,
      this determines the filter completely. */
  lemma {:induction false} FilterAppend(a: seq<Question>, b: seq<Question>, term: string)
    ensures FilterQuestions(a + b, term) == FilterQuestions(a, term) + FilterQuestions(b, term)
  {
    if a == [] {
      assert a + b == b;
    } else {
      FilterAppend(a[1..], b, term);
      ConsSplit(a, b);
      var head := FilterCons(a[0], a[1..] + b, term);
      var head' := FilterCons(a[0], a[1..], term);
      SeqAssoc(head, FilterQuestions(a[1..], term), FilterQuestions(b, term));
    }
  }

  /** Filtering a list with a given first element: that element, if it matches, then the
      filtered rest. */
  lemma FilterCons(x: Question, rest: seq<Question>, term: string) returns (head: seq<Question>)
    ensures head == if Matches(x, term) then [x] else []
    ensures FilterQuestions([x] + rest, term) == head + FilterQuestions(rest, term)
  {
    assert ([x] + rest)[0] == x;
    assert ([x] + rest)[1..] == rest;
    head := if Matches(x, term) then [x] else [];
  }

  /** A non-empty sequence is its first element followed by the rest. */
  lemma ConsSplit<T>(a: seq<T>, b: seq<T>)
    requires a != []
    ensures a + b == [a[0]] + (a[1..] + b)
    ensures a == [a[0]] + a[1..]
  {
  }

  lemma SeqAssoc<T>(x: seq<T>, y: seq<T>, z: seq<T>)
    ensures x + (y + z) == (x + y) + z
  {
  }

  /** What the search box does with a term: an empty term shows every question. */
  function SearchResults(qs: seq<Question>, term: string): (r: seq<Question>)
    ensures IsSubsequence(r, qs)
    ensures term == "" ==> r == qs
    ensures term != "" ==> forall q :: q in r <==> q in qs && Matches(q, term)
  {
    SubsequenceRefl(qs);
    if term == "" then qs else FilterQuestions(qs, term)
  }

  /** The empty term needs no special case: every text includes the empty text, so the filter
      itself keeps every question. */
  lemma {:induction false} EmptyTermFilterIsIdentity(qs: seq<Question>)
    ensures FilterQuestions(qs, "") == qs
  {
    if qs != [] {
      IncludesEmpty(Lower(qs[0].question));
      assert Lower("") == "";
      EmptyTermFilterIsIdentity(qs[1..]);
      assert [qs[0]] + qs[1..] == qs;
    }
  }

  lemma SearchResultsIsFilter(qs: seq<Question>, term: string)
    ensures SearchResults(qs, term) == FilterQuestions(qs, term)
  {
    if term == "" {
      EmptyTermFilterIsIdentity(qs);
    }
  }

  /** `questions.find(q => q.id === id)`: the first question with that id, if any. */
  function FindById(qs: seq<Question>, id: string): (r: Option<Question>)
    ensures r.None? <==> forall i :: 0 <= i < |qs| ==> qs[i].id != id
    ensures r.Some? ==> exists i :: 0 <= i < |qs| && qs[i] == r.value && qs[i].id == id
                                    && forall j :: 0 <= j < i ==> qs[j].id != id
  {
    if qs == [] then None
    else if qs[0].id == id then
      Some(qs[0])
    else
      var r := FindById(qs[1..], id);
      assert forall i :: 1 <= i < |qs| ==> qs[i] == qs[1..][i - 1];
      if r.Some? then
        var i :| 0 <= i < |qs[1..]| && qs[1..][i] == r.value && qs[1..][i].id == id
                 && forall j :: 0 <= j < i ==> qs[1..][j].id != id;
        assert forall j :: 1 <= j < i + 1 ==> qs[j] == qs[1..][j - 1];
        assert qs[i + 1] == r.value;
        r
      else r
  }

  /** The i-th question (from 0) carries the id `i + 1` written in decimal. */
  predicate SequentialIds(qs: seq<Question>) {
    forall i :: 0 <= i < |qs| ==> qs[i].id == NatToString(i + 1)
  }

  lemma InitialIdsSequential()
    ensures SequentialIds(InitialQuestions())
  {
    var qs := InitialQuestions();
    assert NatToString(1) == "1" && NatToString(2) == "2" && NatToString(3) == "3";
  }

  /** A question whose id no earlier question carries is the one `find` returns. */
  lemma {:induction false} FindFirst(qs: seq<Question>, id: string, i: nat)
    requires i < |qs| && qs[i].id == id
    requires forall j :: 0 <= j < i ==> qs[j].id != id
    ensures FindById(qs, id) == Some(qs[i])
  {
    if i > 0 {
      assert qs[1..][i - 1] == qs[i];
      assert forall j :: 0 <= j < i - 1 ==> qs[1..][j] == qs[j + 1];
      FindFirst(qs[1..], id, i - 1);
    }
  }

  /** With sequential ids, looking up id `k` finds the k-th question. */
  lemma FindSequentialId(qs: seq<Question>, k: nat)
    requires SequentialIds(qs)
    requires 1 <= k <= |qs|
    ensures FindById(qs, NatToString(k)) == Some(qs[k - 1])
  {
    forall j | 0 <= j < k - 1
      ensures qs[j].id != NatToString(k)
    {
      if qs[j].id == NatToString(k) {
        NatToStringInjective(j + 1, k);
      }
    }
    FindFirst(qs, NatToString(k), k - 1);
  }

  /** With sequential ids, an id past the end of the list finds nothing. */
  lemma FindIdPastEnd(qs: seq<Question>, k: nat)
    requires SequentialIds(qs)
    requires k > |qs|
    ensures FindById(qs, NatToString(k)) == None
  {
    forall i | 0 <= i < |qs|
      ensures qs[i].id != NatToString(k)
    {
      if qs[i].id == NatToString(k) {
        NatToStringInjective(i + 1, k);
      }
    }
  }

  /** The index `Array.prototype.slice` uses for an argument `i` on a list of length `len`:
      a negative argument counts from the end, and the result is clamped to [0, len]. */
  function SliceIndex(i: int, len: nat): (r: nat)
    ensures r <= len
    ensures 0 <= i ==> r == if i <= len then i else len
    ensures i < 0 ==> r == if len + i >= 0 then len + i else 0
  {
    if i < 0 then (if len + i < 0 then 0 else len + i)
    else if i > len then len
    else i
  }

  /** `s.slice(start, end)`. */
  function JsSlice<T>(s: seq<T>, start: int, end: int): (r: seq<T>)
    ensures |r| <= |s|
    ensures 0 <= start <= end <= |s| ==> r == s[start..end]
  {
    var a := SliceIndex(start, |s|);
    var b := SliceIndex(end, |s|);
    if b <= a then [] else s[a..b]
  }

  /** `Math.ceil(a / b)` for natural `a` and positive `b`: the least `c` with `a <= c * b`. */
  function CeilDiv(a: nat, b: nat): (c: nat)
    requires b > 0
    ensures a <= c * b
    ensures c > 0 ==> (c - 1) * b < a
  {
    var c := (a + b - 1) / b;
    assert a + b - 1 == c * b + (a + b - 1) % b;
    c
  }

  datatype PageData = PageData(
    currentQuestions: seq<Question>,
    totalPages: nat,
    currentPage: int,
    questionsPerPage: nat)

  /** `getPaginationData`: the questions of the current page, and the number of pages. */
  function PaginationData(filtered: seq<Question>, currentPage: int, perPage: nat): (d: PageData)
    requires perPage > 0
    ensures |d.currentQuestions| <= perPage
    ensures d.totalPages * perPage >= |filtered|
    ensures d.totalPages > 0 ==> (d.totalPages - 1) * perPage < |filtered|
    ensures currentPage >= 1 ==> d.currentQuestions == PageOf(filtered, currentPage, perPage)
    ensures currentPage == 0 ==> d.currentQuestions == []
    ensures d.currentPage == currentPage && d.questionsPerPage == perPage
  {
    var last := currentPage * perPage;
    var first := last - perPage;
    var page := JsSlice(filtered, first, last);
    assert |page| <= perPage by {
      SliceLength(filtered, first, last);
    }
    assert currentPage >= 1 ==> page == PageOf(filtered, currentPage, perPage) by {
      if currentPage >= 1 {
        PageBounds(|filtered|, currentPage, perPage);
      }
    }
    PageData(page, CeilDiv(|filtered|, perPage), currentPage, perPage)
  }

  /** A slice is never longer than the distance between its arguments. */
  lemma SliceLength<T>(s: seq<T>, start: int, end: int)
    requires start <= end
    ensures |JsSlice(s, start, end)| <= end - start
  {
  }

  function Min(a: int, b: int): int {
    if a <= b then a else b
  }

  /** Page `p` (from 1) of `qs` with `n` questions per page: positions [(p-1)n, pn), cut at the end. */
  function PageOf(qs: seq<Question>, p: nat, n: nat): seq<Question>
    requires p >= 1
  {
    qs[Min((p - 1) * n, |qs|)..Min(p * n, |qs|)]
  }

  lemma PageBounds(len: nat, p: nat, n: nat)
    requires p >= 1
    ensures 0 <= p * n - n <= p * n
    ensures p * n - n == (p - 1) * n
  {
  }

  /** Pages 1 to k, one after the other. */
  function PagesUpTo(qs: seq<Question>, k: nat, n: nat): seq<Question>
  {
    if k == 0 then [] else PagesUpTo(qs, k - 1, n) + PageOf(qs, k, n)
  }

  lemma {:induction false} PagesUpToPrefix(qs: seq<Question>, k: nat, n: nat)
    ensures PagesUpTo(qs, k, n) == qs[..Min(k * n, |qs|)]
  {
    if k > 0 {
      PagesUpToPrefix(qs, k - 1, n);
      PageBounds(|qs|, k, n);
      var a := Min((k - 1) * n, |qs|);
      var b := Min(k * n, |qs|);
      assert a <= b;
      assert qs[..a] + qs[a..b] == qs[..b];
    }
  }

  /** The pages 1 to totalPages, read in order, are exactly the filtered list: every question
      is on exactly one page and the pages keep the list's order. */
  lemma PagesPartition(filtered: seq<Question>, perPage: nat)
    requires perPage > 0
    ensures PagesUpTo(filtered, PaginationData(filtered, 1, perPage).totalPages, perPage) == filtered
  {
    var t := PaginationData(filtered, 1, perPage).totalPages;
    PagesUpToPrefix(filtered, t, perPage);
    assert Min(t * perPage, |filtered|) == |filtered|;
  }

  /** The store. `questions` holds every question asked so far; `filteredQuestions` is what the
      list shows; `currentPage` is the page of that list on view. */
  class QuestionStore {
    var questions: seq<Question>
    var filteredQuestions: seq<Question>
    var searchTerm: string
    var currentPage: int

    /** The list on view is drawn from the questions in order, and ids are sequential. */
    predicate Valid()
      reads this
    {
      IsSubsequence(filteredQuestions, questions) && SequentialIds(questions)
    }

    constructor ()
      ensures Valid()
      ensures questions == InitialQuestions() && filteredQuestions == questions
      ensures searchTerm == "" && currentPage == 1
    {
      questions := InitialQuestions();
      filteredQuestions := InitialQuestions();
      searchTerm := "";
      currentPage := 1;
      SubsequenceRefl(InitialQuestions());
      InitialIdsSequential();
    }

    /** `setSearchTerm`: store the term, narrow the list to the matching questions, and go
        back to the first page. */
    method SetSearchTerm(term: string)
      requires Valid()
      modifies this
      ensures Valid()
      ensures searchTerm == term && currentPage == 1 && questions == old(questions)
      ensures filteredQuestions == SearchResults(questions, term)
    {
      filteredQuestions := SearchResults(questions, term);
      searchTerm := term;
      currentPage := 1;
    }

    /** `setCurrentPage`: only the page changes. */
    method SetCurrentPage(page: int)
      requires Valid()
      modifies this
      ensures Valid()
      ensures currentPage == page
      ensures questions == old(questions) && filteredQuestions == old(filteredQuestions)
      ensures searchTerm == old(searchTerm)
    {
      currentPage := page;
    }

    /** `getQuestion`. */
    function GetQuestion(id: string): (r: Option<Question>)
      reads this
      ensures r.Some? ==> r.value in questions && r.value.id == id
      ensures r.None? <==> forall q :: q in questions ==> q.id != id
    {
      FindById(questions, id)
    }

    /** `generateAnswer`: append a new answered question under the next id, with the canned
        answer and the given timestamp, and show the full list again. */
    method GenerateAnswer(question: string, timestamp: string) returns (q: Question)
      requires Valid()
      modifies this
      ensures Valid()
      ensures q == Question(NatToString(|old(questions)| + 1), question, GeneratedAnswer(question),
                            timestamp, Answered, None)
      ensures questions == old(questions) + [q]
      ensures filteredQuestions == questions
      ensures searchTerm == old(searchTerm) && currentPage == old(currentPage)
      ensures FindById(questions, q.id) == Some(q)
      ensures FindById(old(questions), q.id) == None
    {
      q := Question(NatToString(|questions| + 1), question, GeneratedAnswer(question),
                    timestamp, Answered, None);
      FindIdPastEnd(questions, |questions| + 1);
      var updated := questions + [q];
      questions := updated;
      filteredQuestions := updated;
      SubsequenceRefl(updated);
      FindSequentialId(updated, |updated|);
    }

    /** `getPaginationData` on the store's current state. */
    function GetPaginationData(): (d: PageData)
      reads this
      ensures d.totalPages == CeilDiv(|filteredQuestions|, QuestionsPerPage)
      ensures currentPage >= 1 ==> d.currentQuestions == PageOf(filteredQuestions, currentPage, QuestionsPerPage)
    {
      PaginationData(filteredQuestions, currentPage, QuestionsPerPage)
    }
  }
}
