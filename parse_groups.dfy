/**
 * The `parse-groups` handler: from the course page, build a record from
 * each group heading's trimmed text to the lesson links listed under it.
 * The markup query is a parameter that yields, per `.course_title_text`
 * heading, its text and the `data-link` attribute of each `tr.lection_link`
 * row in the following `.lection_main_block`; URL resolution
 * (`new URL(link, base).href`) is a parameter that may throw.
 */
module ParseGroups {
  import opened Wrappers
  import opened Records
  import opened Strings

  datatype Heading = Heading(text: string, rows: seq<Option<string>>)

  datatype Response = Success(data: Rec<seq<string>>) | Failure(error: string)

  const HtmlRequired: string := "HTML content is required"
  const ParseFailed: string := "Failed to parse groups"

  /** `error.message || 'Failed to parse groups'` */
  function ErrorMessage(message: string): string {
    if message == "" then ParseFailed else message
  }

  /**
   * One row: a link starting with `http` is kept as it is, any other link is
   * resolved against the base URL; a missing (or empty) `data-link` is not pushed.
   */
  function NormalizeLink(dataLink: Option<string>, baseUrl: string,
                         resolve: (string, string) -> Result<string, string>): Result<Option<string>, string>
  {
    if dataLink.None? || dataLink.value == "" then Ok(None)
    else if StartsWith(dataLink.value, "http") then Ok(Some(dataLink.value))
    else
      match resolve(dataLink.value, baseUrl)
      case Err(m) => Err(m)
      case Ok(href) => if href == "" then Ok(None) else Ok(Some(href))
  }

  /** The links pushed for a heading's rows, in row order; the first resolution error aborts. */
  function LinksFor(rows: seq<Option<string>>, baseUrl: string,
                    resolve: (string, string) -> Result<string, string>): Result<seq<string>, string>
  {
    if rows == [] then Ok([])
    else
      var n := |rows| - 1;
      match LinksFor(rows[..n], baseUrl, resolve)
      case Err(m) => Err(m)
      case Ok(links) =>
        match NormalizeLink(rows[n], baseUrl, resolve)
        case Err(m) => Err(m)
        case Ok(None) => Ok(links)
        case Ok(Some(link)) => Ok(links + [link])
  }

  /** The groups record after the given headings; a repeated heading text resets its list. */
  function GroupsFor(headings: seq<Heading>, baseUrl: string,
                     resolve: (string, string) -> Result<string, string>): Result<Rec<seq<string>>, string>
  {
    if headings == [] then Ok(Empty())
    else
      var n := |headings| - 1;
      match GroupsFor(headings[..n], baseUrl, resolve)
      case Err(m) => Err(m)
      case Ok(groups) =>
        match LinksFor(headings[n].rows, baseUrl, resolve)
        case Err(m) => Err(m)
        case Ok(links) => Ok(Put(groups, Trim(headings[n].text), links))
  }

  /** The handler's reply for a request body whose `html` is `html`. */
  function ParseGroupsSpec(html: Option<string>, extract: string -> seq<Heading>, baseUrl: string,
                           resolve: (string, string) -> Result<string, string>): Response
  {
    if html.None? || html.value == "" then Failure(HtmlRequired)
    else
      match GroupsFor(extract(html.value), baseUrl, resolve)
      case Err(m) => Failure(ErrorMessage(m))
      case Ok(groups) => Success(groups)
  }

  lemma LinksStep(rows: seq<Option<string>>, j: nat, baseUrl: string,
                  resolve: (string, string) -> Result<string, string>)
    requires j < |rows|
    ensures LinksFor(rows[..j + 1], baseUrl, resolve) ==
      match LinksFor(rows[..j], baseUrl, resolve)
      case Err(m) => Err(m)
      case Ok(links) =>
        match NormalizeLink(rows[j], baseUrl, resolve)
        case Err(m) => Err(m)
        case Ok(None) => Ok(links)
        case Ok(Some(link)) => Ok(links + [link])
  {
    assert rows[..j + 1][..j] == rows[..j];
  }

  lemma {:induction false} LinksErrSticky(rows: seq<Option<string>>, j: nat, baseUrl: string,
                                          resolve: (string, string) -> Result<string, string>)
    requires j <= |rows| && LinksFor(rows[..j], baseUrl, resolve).Err?
    ensures LinksFor(rows, baseUrl, resolve) == LinksFor(rows[..j], baseUrl, resolve)
    decreases |rows| - j
  {
    if j < |rows| {
      LinksStep(rows, j, baseUrl, resolve);
      LinksErrSticky(rows, j + 1, baseUrl, resolve);
    } else {
      assert rows[..j] == rows;
    }
  }

  lemma GroupsStep(headings: seq<Heading>, i: nat, baseUrl: string,
                   resolve: (string, string) -> Result<string, string>)
    requires i < |headings|
    ensures GroupsFor(headings[..i + 1], baseUrl, resolve) ==
      match GroupsFor(headings[..i], baseUrl, resolve)
      case Err(m) => Err(m)
      case Ok(groups) =>
        match LinksFor(headings[i].rows, baseUrl, resolve)
        case Err(m) => Err(m)
        case Ok(links) => Ok(Put(groups, Trim(headings[i].text), links))
  {
    assert headings[..i + 1][..i] == headings[..i];
  }

  lemma {:induction false} GroupsErrSticky(headings: seq<Heading>, i: nat, baseUrl: string,
                                           resolve: (string, string) -> Result<string, string>)
    requires i <= |headings| && GroupsFor(headings[..i], baseUrl, resolve).Err?
    ensures GroupsFor(headings, baseUrl, resolve) == GroupsFor(headings[..i], baseUrl, resolve)
    decreases |headings| - i
  {
    if i < |headings| {
      GroupsStep(headings, i, baseUrl, resolve);
      GroupsErrSticky(headings, i + 1, baseUrl, resolve);
    } else {
      assert headings[..i] == headings;
    }
  }

  /** The row loop of one heading: `groups[groupName] = []`, then each normalised link pushed onto it; or the error thrown. */
  method CollectLinks(groups0: Rec<seq<string>>, groupName: string, rows: seq<Option<string>>, baseUrl: string,
                      resolve: (string, string) -> Result<string, string>)
    returns (failure: Option<string>, groups: Rec<seq<string>>)
    ensures failure.None? <==> LinksFor(rows, baseUrl, resolve).Ok?
    ensures failure.Some? ==> failure.value == LinksFor(rows, baseUrl, resolve).error
    ensures failure.None? ==> groups == Put(groups0, groupName, LinksFor(rows, baseUrl, resolve).value)
  {
    groups := Put(groups0, groupName, []);
    var j := 0;
    while j < |rows|
      invariant 0 <= j <= |rows|
      invariant LinksFor(rows[..j], baseUrl, resolve).Ok?
      invariant groups == Put(groups0, groupName, LinksFor(rows[..j], baseUrl, resolve).value)
    {
      LinksStep(rows, j, baseUrl, resolve);
      var dataLink := NormalizeLink(rows[j], baseUrl, resolve);
      if dataLink.Err? {
        LinksErrSticky(rows, j + 1, baseUrl, resolve);
        return Some(dataLink.error), groups;
      }
      if dataLink.value.Some? {
        PutPut(groups0, groupName, LinksFor(rows[..j], baseUrl, resolve).value,
               groups.vals[groupName] + [dataLink.value.value]);
        groups := Put(groups, groupName, groups.vals[groupName] + [dataLink.value.value]);
      }
      j := j + 1;
    }
    assert rows[..j] == rows;
    failure := None;
  }

  method ParseGroups(html: Option<string>, extract: string -> seq<Heading>, baseUrl: string,
                     resolve: (string, string) -> Result<string, string>)
    returns (r: Response)
    ensures r == ParseGroupsSpec(html, extract, baseUrl, resolve)
    ensures html.None? || html == Some("") ==> r == Failure(HtmlRequired)
  {
    if html.None? || html.value == "" {
      return Failure(HtmlRequired);
    }
    var headings := extract(html.value);
    var groups: Rec<seq<string>> := Empty();
    var i := 0;
    while i < |headings|
      invariant 0 <= i <= |headings|
      invariant GroupsFor(headings[..i], baseUrl, resolve) == Ok(groups)
    {
      GroupsStep(headings, i, baseUrl, resolve);
      ghost var links := LinksFor(headings[i].rows, baseUrl, resolve);
      ghost var before := groups;
      var failure;
      failure, groups := CollectLinks(groups, Trim(headings[i].text), headings[i].rows, baseUrl, resolve);
      if failure.Some? {
        assert GroupsFor(headings[..i + 1], baseUrl, resolve) == Err(links.error);
        GroupsErrSticky(headings, i + 1, baseUrl, resolve);
        return Failure(ErrorMessage(failure.value));
      }
      assert GroupsFor(headings[..i + 1], baseUrl, resolve) == Ok(Put(before, Trim(headings[i].text), links.value));
      i := i + 1;
    }
    assert headings[..i] == headings;
    return Success(groups);
  }

  // ---------------------------------------------------------------------------
  // properties of the grouping

  /** The trimmed texts of the headings. */
  function HeadingKeys(headings: seq<Heading>): set<string> {
    set h | h in headings :: Trim(h.text)
  }

  /** Splitting off the last heading splits its trimmed text off the key set. */
  lemma HeadingKeysLast(headings: seq<Heading>)
    requires headings != []
    ensures HeadingKeys(headings)
         == HeadingKeys(headings[..|headings| - 1]) + {Trim(headings[|headings| - 1].text)}
  {
    var n := |headings| - 1;
    assert headings == headings[..n] + [headings[n]];
    forall h | h in headings
      ensures h in headings[..n] || h == headings[n]
    {
      var k :| 0 <= k < |headings| && headings[k] == h;
      if k < n {
        assert headings[..n][k] == h;
      }
    }
  }

  /** Every heading creates a key (its trimmed text), even without links, and no other key exists. */
  lemma {:induction false} GroupsKeys(headings: seq<Heading>, baseUrl: string,
                                      resolve: (string, string) -> Result<string, string>)
    requires GroupsFor(headings, baseUrl, resolve).Ok?
    ensures Valid(GroupsFor(headings, baseUrl, resolve).value)
    ensures GroupsFor(headings, baseUrl, resolve).value.vals.Keys == HeadingKeys(headings)
  {
    if headings != [] {
      var n := |headings| - 1;
      GroupsStep(headings, n, baseUrl, resolve);
      assert headings[..n + 1] == headings;
      var prev := GroupsFor(headings[..n], baseUrl, resolve);
      assert prev.Ok?;
      var links := LinksFor(headings[n].rows, baseUrl, resolve);
      assert links.Ok?;
      GroupsKeys(headings[..n], baseUrl, resolve);
      HeadingKeysLast(headings);
      var r := Put(prev.value, Trim(headings[n].text), links.value);
      assert GroupsFor(headings, baseUrl, resolve) == Ok(r);
      assert r.vals.Keys == prev.value.vals.Keys + {Trim(headings[n].text)};
    }
  }

  /** Heading `i`'s links survive every later heading of another text, up to heading `m`. */
  lemma {:induction false} LinksSurvive(headings: seq<Heading>, i: nat, m: nat, baseUrl: string,
                                        resolve: (string, string) -> Result<string, string>)
    requires i < m <= |headings| && GroupsFor(headings[..m], baseUrl, resolve).Ok?
    requires forall j | i < j < |headings| :: Trim(headings[j].text) != Trim(headings[i].text)
    ensures LinksFor(headings[i].rows, baseUrl, resolve).Ok?
    ensures Get(GroupsFor(headings[..m], baseUrl, resolve).value, Trim(headings[i].text))
         == Some(LinksFor(headings[i].rows, baseUrl, resolve).value)
    decreases m
  {
    GroupsStep(headings, m - 1, baseUrl, resolve);
    var prev := GroupsFor(headings[..m - 1], baseUrl, resolve);
    var links := LinksFor(headings[m - 1].rows, baseUrl, resolve);
    assert prev.Ok? && links.Ok?;
    PutGet(prev.value, Trim(headings[m - 1].text), links.value, Trim(headings[i].text));
    if m - 1 > i {
      LinksSurvive(headings, i, m - 1, baseUrl, resolve);
    }
  }

  /** Only the last heading with a given text keeps its links. */
  lemma GroupsLastWins(headings: seq<Heading>, i: nat, baseUrl: string,
                       resolve: (string, string) -> Result<string, string>)
    requires GroupsFor(headings, baseUrl, resolve).Ok?
    requires i < |headings|
    requires forall j | i < j < |headings| :: Trim(headings[j].text) != Trim(headings[i].text)
    ensures LinksFor(headings[i].rows, baseUrl, resolve).Ok?
    ensures Trim(headings[i].text) in GroupsFor(headings, baseUrl, resolve).value.vals
    ensures GroupsFor(headings, baseUrl, resolve).value.vals[Trim(headings[i].text)]
         == LinksFor(headings[i].rows, baseUrl, resolve).value
  {
    assert headings[..|headings|] == headings;
    LinksSurvive(headings, i, |headings|, baseUrl, resolve);
  }

  /** A resolution error in any row of any heading aborts the whole parse. */
  lemma AnyResolutionErrorAborts(headings: seq<Heading>, i: nat, j: nat, baseUrl: string,
                                 resolve: (string, string) -> Result<string, string>)
    requires i < |headings| && j < |headings[i].rows|
    requires NormalizeLink(headings[i].rows[j], baseUrl, resolve).Err?
    ensures GroupsFor(headings, baseUrl, resolve).Err?
  {
    var rows := headings[i].rows;
    LinksStep(rows, j, baseUrl, resolve);
    LinksErrSticky(rows, j + 1, baseUrl, resolve);
    GroupsStep(headings, i, baseUrl, resolve);
    GroupsErrSticky(headings, i + 1, baseUrl, resolve);
  }

  /** Links of one heading: links of consecutive rows concatenate, so row order is kept. */
  lemma {:induction false} LinksAppend(a: seq<Option<string>>, b: seq<Option<string>>, baseUrl: string,
                                       resolve: (string, string) -> Result<string, string>)
    requires LinksFor(a, baseUrl, resolve).Ok? && LinksFor(b, baseUrl, resolve).Ok?
    ensures LinksFor(a + b, baseUrl, resolve)
         == Ok(LinksFor(a, baseUrl, resolve).value + LinksFor(b, baseUrl, resolve).value)
    decreases |b|
  {
    if b == [] {
      assert a + b == a;
      assert LinksFor(a, baseUrl, resolve).value + [] == LinksFor(a, baseUrl, resolve).value;
    } else {
      var n := |b| - 1;
      var ab := a + b;
      assert ab[..|ab| - 1] == a + b[..n];
      assert ab[|ab| - 1] == b[n];
      var prefixLinks := LinksFor(b[..n], baseUrl, resolve);
      assert prefixLinks.Ok?;
      LinksAppend(a, b[..n], baseUrl, resolve);
      var la := LinksFor(a, baseUrl, resolve).value;
      assert LinksFor(a + b[..n], baseUrl, resolve) == Ok(la + prefixLinks.value);
      match NormalizeLink(b[n], baseUrl, resolve)
      case Ok(None) =>
      case Ok(Some(link)) =>
        assert la + prefixLinks.value + [link] == la + (prefixLinks.value + [link]);
    }
  }

  lemma {:induction false} LinksBound(rows: seq<Option<string>>, baseUrl: string,
                                      resolve: (string, string) -> Result<string, string>)
    requires LinksFor(rows, baseUrl, resolve).Ok?
    ensures |LinksFor(rows, baseUrl, resolve).value| <= |rows|
  {
    if rows != [] {
      LinksBound(rows[..|rows| - 1], baseUrl, resolve);
    }
  }

  /** The values of rows that all carry a link. */
  function LinkValues(rows: seq<Option<string>>): (r: seq<string>)
    requires forall j | 0 <= j < |rows| :: rows[j].Some?
    ensures |r| == |rows| && forall j | 0 <= j < |rows| :: r[j] == rows[j].value
  {
    if rows == [] then [] else LinkValues(rows[..|rows| - 1]) + [rows[|rows| - 1].value]
  }

  /** Rows whose links all start with `http` are kept verbatim, in order, without resolving anything. */
  lemma {:induction false} LinksPassthrough(rows: seq<Option<string>>, baseUrl: string,
                                            resolve: (string, string) -> Result<string, string>)
    requires forall j | 0 <= j < |rows| :: rows[j].Some? && StartsWith(rows[j].value, "http")
    ensures LinksFor(rows, baseUrl, resolve) == Ok(LinkValues(rows))
  {
    if rows != [] {
      var n := |rows| - 1;
      LinksPassthrough(rows[..n], baseUrl, resolve);
      assert rows[n].value != "";
      assert NormalizeLink(rows[n], baseUrl, resolve) == Ok(Some(rows[n].value));
    }
  }

  /** A row without `data-link` contributes nothing. */
  lemma MissingLinkSkipped(a: seq<Option<string>>, b: seq<Option<string>>, baseUrl: string,
                           resolve: (string, string) -> Result<string, string>)
    requires LinksFor(a, baseUrl, resolve).Ok? && LinksFor(b, baseUrl, resolve).Ok?
    ensures LinksFor(a + [None] + b, baseUrl, resolve) == LinksFor(a + b, baseUrl, resolve)
  {
    var missing: seq<Option<string>> := [None];
    assert missing[..0] == [];
    assert LinksFor(missing, baseUrl, resolve) == Ok([]);
    LinksAppend(a, [None], baseUrl, resolve);
    assert LinksFor(a, baseUrl, resolve).value + [] == LinksFor(a, baseUrl, resolve).value;
    LinksAppend(a + [None], b, baseUrl, resolve);
    LinksAppend(a, b, baseUrl, resolve);
  }
}
