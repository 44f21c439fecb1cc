/**
 * The validation helpers of src/validation/utils.ts: parse a value against a
 * schema and, when the schema library rejects it, rethrow its issues as one
 * ordinary error whose message lists every issue as "path: message",
 * separated by "; ", after a caller-chosen prefix.
 */
module ValidationUtils {
  import opened Values
  import opened Strings
  import Schemas

  // ---------------------------------------------------------------------
  // Rendering issues

  /** One path step as `join` renders it: a key is its name, an index its decimal digits. */
  function SegmentText(step: Segment): string
  {
    match step
    case Key(name) => name
    case Index(i) => NatToString(i)
  }

  function SegmentTexts(path: seq<Segment>): seq<string>
  {
    seq(|path|, k requires 0 <= k < |path| => SegmentText(path[k]))
  }

  /**
   * `err.path.join('.')`. It is empty, and so left out of the issue's text,
   * exactly for the root path and for a path that is a single empty key.
   */
  function PathText(path: seq<Segment>): (text: string)
    ensures text == "" <==> path == [] || path == [Key("")]
  {
    var parts := SegmentTexts(path);
    JoinEmpty(".", parts);
    assert |path| == 1 ==> (parts[0] == "" <==> path[0] == Key("")) by {
      if |path| == 1 && path[0].Index? {
        assert |parts[0]| > 0;
      }
    }
    Join(".", parts)
  }

  /** One issue as "path: message", or just the message when the path renders empty. */
  function IssueText(issue: Issue): (text: string)
    ensures |text| >= |issue.message|
    ensures text[|text| - |issue.message|..] == issue.message
    ensures text == issue.message <==> PathText(issue.path) == ""
  {
    var path := PathText(issue.path);
    (if path != "" then path + ": " else "") + issue.message
  }

  function IssueTexts(issues: seq<Issue>): seq<string>
  {
    seq(|issues|, k requires 0 <= k < |issues| => IssueText(issues[k]))
  }

  /** Every issue's text, in order, separated by "; ": the first one opens the list. */
  function FormatIssues(issues: seq<Issue>): (text: string)
    ensures |issues| == 0 ==> text == ""
    ensures |issues| > 0 ==> IssueText(issues[0]) <= text
  {
    Join("; ", IssueTexts(issues))
  }

  // ---------------------------------------------------------------------
  // Validation

  /**
   * The `catch` of `validate`: a schema error becomes an ordinary error
   * carrying `errorMessage` and the formatted issues; any other error is
   * rethrown unchanged, and a parsed value is returned unchanged.
   */
  function Handle(outcome: Result<Value, Thrown>, errorMessage: string): (r: Result<Value, Thrown>)
    ensures outcome.Ok? ==> r == outcome
    ensures outcome.Err? ==> r.Err? && r.error.Error?
    ensures outcome.Err? && outcome.error.ZodError? ==>
      r.error.message == errorMessage + ": " + FormatIssues(outcome.error.issues)
    ensures outcome.Err? && outcome.error.Error? ==> r == outcome
  {
    match outcome
    case Ok(_) => outcome
    case Err(ZodError(issues)) => Err(Error(errorMessage + ": " + FormatIssues(issues)))
    case Err(Error(_)) => outcome
  }

  /**
   * `validate(schema, data, errorMessage)`: the parsed value when `data`
   * conforms to `schema`, otherwise an error whose message starts with
   * `errorMessage` followed by ": ".
   */
  function Validate(schema: Schemas.Schema, data: Value, errorMessage: string := "Validation error"): (r: Result<Value, Thrown>)
    ensures r.Ok? <==> Schemas.Conforms(schema, data)
    ensures r.Ok? ==> r == Schemas.Parse(schema, data)
    ensures r.Err? ==> r.error.Error? && errorMessage + ": " <= r.error.message
  {
    Schemas.ParseAcceptsIffConforms(schema, data);
    Handle(Schemas.Parse(schema, data), errorMessage)
  }

  /** `validateParams`: validation whose error names the method whose parameters were refused. */
  function ValidateParams(schema: Schemas.Schema, params: Value, methodName: string): (r: Result<Value, Thrown>)
    ensures r.Ok? <==> Schemas.Conforms(schema, params)
    ensures r.Ok? ==> r == Schemas.Parse(schema, params)
    ensures r.Err? ==> r.error.Error? && "Invalid parameters for " + methodName + ": " <= r.error.message
  {
    Validate(schema, params, "Invalid parameters for " + methodName)
  }

  /** `validateResponse`: validation whose error names the method whose response was refused. */
  function ValidateResponse(schema: Schemas.Schema, data: Value, methodName: string): (r: Result<Value, Thrown>)
    ensures r.Ok? <==> Schemas.Conforms(schema, data)
    ensures r.Ok? ==> r == Schemas.Parse(schema, data)
    ensures r.Err? ==> r.error.Error? && "Invalid response from " + methodName + ": " <= r.error.message
  {
    Validate(schema, data, "Invalid response from " + methodName)
  }

  // ---------------------------------------------------------------------
  // Reading the message back

  /** No key on the path contains `c`. */
  predicate KeysAvoid(path: seq<Segment>, c: char)
  {
    forall k | 0 <= k < |path| :: path[k].Key? ==> c !in path[k].name
  }

  /** An issue whose keys and message hold no ';' renders without the "; " separator. */
  lemma IssueTextFree(issue: Issue)
    requires KeysAvoid(issue.path, ';') && ';' !in issue.message
    ensures Free(IssueText(issue), "; ")
  {
    var parts := SegmentTexts(issue.path);
    forall k | 0 <= k < |parts|
      ensures ';' !in parts[k]
    {
      if issue.path[k].Index? {
        assert forall j | 0 <= j < |parts[k]| :: '0' <= parts[k][j] <= '9';
      }
    }
    JoinAvoids(".", parts, ';');
    var path := PathText(issue.path);
    assert ';' !in (if path != "" then path + ": " else "") + issue.message;
    FreeWithout(IssueText(issue), "; ");
  }

  /**
   * The error message lists the issues one by one: cutting the formatted
   * issues at "; " gives back one text per issue, in the order the issues
   * were reported, provided no key on their paths and no message holds a ';'.
   */
  lemma FormatIssuesSplits(issues: seq<Issue>)
    requires |issues| > 0
    requires forall k | 0 <= k < |issues| :: KeysAvoid(issues[k].path, ';') && ';' !in issues[k].message
    ensures Split(FormatIssues(issues), "; ") == IssueTexts(issues)
  {
    var texts := IssueTexts(issues);
    forall k | 0 <= k < |texts|
      ensures Free(texts[k], "; ")
    {
      IssueTextFree(issues[k]);
    }
    SplitJoin(texts, "; ");
  }

  /**
   * Cutting a rendered path at '.' gives back its steps when no key holds a
   * '.'; each index step reads back as the number it was rendered from.
   */
  lemma PathTextSplits(path: seq<Segment>)
    requires |path| > 0 && KeysAvoid(path, '.')
    ensures Split(PathText(path), ".") == SegmentTexts(path)
    ensures forall k | 0 <= k < |path| && path[k].Index? ::
      DigitsValue(SegmentTexts(path)[k]) == path[k].i
  {
    var parts := SegmentTexts(path);
    forall k | 0 <= k < |parts|
      ensures Free(parts[k], ".")
    {
      match path[k]
      case Key(name) => FreeWithout(name, ".");
      case Index(i) => NatToStringFree(i, ".");
    }
    SplitJoin(parts, ".");
    forall k | 0 <= k < |path| && path[k].Index?
      ensures DigitsValue(parts[k]) == path[k].i
    {
      DigitsValueOfNatToString(path[k].i);
    }
  }

  /**
   * When `data` is refused, the error carries exactly the schema library's
   * issues: after the prefix `errorMessage + ": "`, the message splits into
   * one text per issue, in order, provided no key on the issues' paths and
   * no issue message holds a ';'.
   */
  lemma ValidateReportsEveryIssue(schema: Schemas.Schema, data: Value, errorMessage: string)
    requires Schemas.Parse(schema, data).Err?
    requires forall k | 0 <= k < |Schemas.Parse(schema, data).error.issues| ::
      && KeysAvoid(Schemas.Parse(schema, data).error.issues[k].path, ';')
      && ';' !in Schemas.Parse(schema, data).error.issues[k].message
    ensures Validate(schema, data, errorMessage).Err?
    ensures
      var issues := Schemas.Parse(schema, data).error.issues;
      var message := Validate(schema, data, errorMessage).error.message;
      && |message| >= |errorMessage| + 2
      && Split(message[|errorMessage| + 2..], "; ") == IssueTexts(issues)
  {
    Schemas.ParseAcceptsIffConforms(schema, data);
    var issues := Schemas.Parse(schema, data).error.issues;
    var message := Validate(schema, data, errorMessage).error.message;
    assert message == errorMessage + ": " + FormatIssues(issues);
    assert message[|errorMessage| + 2..] == FormatIssues(issues);
    FormatIssuesSplits(issues);
  }

  /** Two parts free of ';', joined by "; ", split back into two. */
  lemma SplitsInTwo(before: string, after: string)
    requires ';' !in before && ';' !in after
    ensures Split(before + "; " + after, "; ") == [before, after]
  {
    FreeWithout(before, "; ");
    FreeWithout(after, "; ");
    SplitJoin([before, after], "; ");
    assert Join("; ", [before, after]) == before + "; " + after;
  }

  /** An issue at the root formats as its bare message. */
  lemma RootIssueFormats(issue: Issue)
    requires issue.path == []
    ensures FormatIssues([issue]) == issue.message
  {
    assert PathText(issue.path) == "";
    assert IssueTexts([issue]) == [IssueText(issue)];
  }

  /** The enum refusal of a string that is not a member: one issue at the root. */
  lemma EnumRefusal(members: seq<Value>, v: Value)
    requires v.Str? && v !in members
    ensures Schemas.Parse(Schemas.EnumS(members), v) == Err(ZodError([Issue([], InvalidEnumValue, EnumMessage(v))]))
  {
  }

  /** The text an enum refusal puts before the received string holds no ';'. */
  lemma EnumHeadFree()
    ensures ';' !in Message(InvalidEnumValue) + ", received '"
  {
  }

  /** The enum refusal of "x; y" holds the separator between its two halves. */
  lemma EnumMessageQuotes(x: string, y: string)
    ensures EnumMessage(Str(x + "; " + y)) == (Message(InvalidEnumValue) + ", received '" + x) + "; " + (y + "'")
  {
  }

  /** The enum refusal of "x; y", formatted, splits at its quoted separator. */
  lemma QuotedIssueSplits(x: string, y: string)
    requires ';' !in x && ';' !in y
    ensures |Split(FormatIssues([Issue([], InvalidEnumValue, EnumMessage(Str(x + "; " + y)))]), "; ")| == 2
  {
    var issue := Issue([], InvalidEnumValue, EnumMessage(Str(x + "; " + y)));
    RootIssueFormats(issue);
    EnumMessageQuotes(x, y);
    var head := Message(InvalidEnumValue) + ", received '";
    EnumHeadFree();
    SplitsInTwo(head + x, y + "'");
  }

  /**
   * Without that proviso the message cannot be read back: an enum refusal
   * quotes the string it received, so refusing "a; b" as, say, a network
   * name gives one issue whose text splits into two parts.
   */
  lemma QuotedSemicolonSplitsOneIssue(members: seq<Value>, x: string, y: string)
    requires ';' !in x && ';' !in y && Str(x + "; " + y) !in members
    ensures Schemas.Parse(Schemas.EnumS(members), Str(x + "; " + y)).Err?
    ensures
      var issues := Schemas.Parse(Schemas.EnumS(members), Str(x + "; " + y)).error.issues;
      |issues| == 1 && |Split(FormatIssues(issues), "; ")| == 2
  {
    EnumRefusal(members, Str(x + "; " + y));
    QuotedIssueSplits(x, y);
  }
}
