/**
 Deriving an assertion from an invocation and its output, and binding an assertion that comes back
 through JSON to the invocation it claims to describe.
 */
module AssertionBinding {
  import opened Json
  import opened Text
  import opened CommandLine
  import opened ExternalAssertion
  import opened Doubles

  // ----- Deriving -------------------------------------------------------------------------------

  datatype PublishedAt = NotReported | ReportedNull | Reported(text: string)

  /** What was captured from a tool's output; each capture is the text a parser or pattern found. */
  datatype Output = Output(
    success: bool,
    pushCommit: Option<string>, pushBranch: Option<string>, pushRemote: Option<string>,
    publishedName: Option<string>, publishedVersion: Option<string>,
    viewValue: Option<string>,
    prState: Option<string>, prUrl: Option<string>, prRepository: Option<string>,
    prNumber: Option<string>, prNumeric: JsNumber,
    releaseRepository: Option<string>, releaseTag: Option<string>, releaseDraft: Option<bool>,
    releasePublished: PublishedAt)

  /** Defined and not empty. */
  predicate Present(o: Option<string>) { o.Some? && o.value != "" }

  function OrElse(o: Option<string>, other: Option<string>): Option<string> { if o.Some? then o else other }

  function Default(o: Option<string>, text: string): string { if o.Some? then o.value else text }

  /** Every run of white space becomes one space. */
  function Collapse(s: string): (r: string)
    decreases |s|
    ensures s == "" ==> r == ""
    ensures s != "" && !IsSpace(s[0]) ==> r != "" && r[0] == s[0]
  {
    if s == "" then ""
    else if IsSpace(s[0]) then
      " " + Collapse(TrimLeft(s[1..]))
    else [s[0]] + Collapse(s[1..])
  }

  function Bounded(value: string, fallback: string): string {
    var compact := Collapse(Trim(value));
    Cut(if compact != "" then compact else fallback)
  }

  function Cut(s: string): string { if |s| > MAX_TEXT then s[..MAX_TEXT] else s }

  lemma TrimKeepsText(s: string)
    requires s != "" && !IsSpace(s[0])
    ensures Trim(s) != ""
  {
    TrimRightKeepsText(s);
  }

  lemma {:induction false} TrimRightKeepsText(s: string)
    requires s != "" && !IsSpace(s[0])
    ensures TrimRight(s) != ""
  {
    if IsSpace(s[|s| - 1]) {
      TrimRightKeepsText(s[..|s| - 1]);
    }
  }

  /** A bounded text is never too long, and blank exactly when the value is and the fallback, cut, is too. */
  lemma BoundedIsGood(value: string, fallback: string)
    ensures |Bounded(value, fallback)| <= MAX_TEXT
    ensures Trim(Bounded(value, fallback)) == "" <==> Trim(value) == "" && Trim(Cut(fallback)) == ""
  {
    if Trim(value) != "" {
      assert Bounded(value, fallback) != "" && !IsSpace(Bounded(value, fallback)[0]);
      TrimKeepsText(Bounded(value, fallback));
    }
  }

  function Make(action: Action, status: Status, provider: Provider, target: string, observedAt: real,
                observed: Option<string>, details: Option<Details>): (a: Assertion)
    ensures Trim(a.target) != "" && |a.target| <= MAX_TEXT && Short(a.observedValue)
    ensures a.observedValue.Some? && Trim(a.observedValue.value) == ""
       <==> Present(observed) && Trim(observed.value) == ""
  {
    BoundedIsGood(target, "unknown-target");
    TrimKeepsText("unknown-target");
    BoundedIsGood(Default(observed, ""), "");
    Assertion(action, status, provider, Bounded(target, "unknown-target"),
              if Present(observed) then Some(Bounded(observed.value, "")) else None, observedAt, details)
  }

  function Judge(success: bool, evidence: bool): Status {
    if success && evidence then Passed else if success then Inconclusive else Failed
  }

  function PrStateOf(text: Option<string>): Option<PrState> {
    if text.None? then None else ReadState(text.value)
  }

  /** The number of a pull request, when the text is one. */
  function NumberOfDigits(text: Option<string>): Option<JsNumber> {
    if text.Some? && AllDigits(text.value) then Some(NumberOf(Decimal(text.value))) else None
  }

  predicate TruthyNumber(n: JsNumber) { !n.NaN? && !n.NegativeZero? && n != Finite(0.0) }

  predicate IsPublished(o: Output) {
    o.releaseDraft == Some(false) && o.releasePublished.Reported? && o.releasePublished.text != ""
  }

  /** The assertion for a recognised invocation. */
  function Derive(inv: Invocation, o: Output, observedAt: real): Option<Assertion> {
    match inv
    case GitPush =>
      var named := Present(o.pushBranch) && Present(o.pushRemote);
      Some(Make(ActPush, Judge(o.success, named && Present(o.pushCommit)), ByGit,
                if named then o.pushRemote.value + "#" + o.pushBranch.value else "configured-upstream",
                observedAt, o.pushCommit, Some(Push(o.pushRemote, o.pushBranch, o.pushCommit))))
    case Publish =>
      var target := Default(o.publishedName, "current-package");
      Some(Make(ActPublish, Judge(o.success, target != "current-package" && Present(o.publishedVersion)), ByNpm,
                target, observedAt, o.publishedVersion,
                if Present(o.publishedName) then Some(Npm(o.publishedName.value, o.publishedVersion, FieldPublish))
                else None))
    case View(view) =>
      Some(Make(ActRegistry, Judge(o.success, Present(o.viewValue)), ByNpm, view.packageName, observedAt,
                o.viewValue, Some(Npm(view.packageName, o.viewValue, view.field))))
    case PrCreate(repo) =>
      var number := if Present(o.prNumber) then Some(o.prNumeric) else None;
      Some(Make(ActPullRequest,
                Judge(o.success, Present(o.prUrl) && number.Some? && TruthyNumber(number.value)), ByGithub,
                if o.prUrl.Some? then o.prUrl.value
                else if Present(repo) then repo.value + ":pull-request" else "current-repository:pull-request",
                observedAt, Some("OPEN"), Some(GithubPr(OrElse(o.prRepository, repo), number, Some(Open)))))
    case PrMerge(repo, pr) =>
      Some(Make(ActMerge, Judge(o.success, false), ByGithub,
                if Present(repo) then repo.value + "#" + Default(pr, "current")
                else "pull-request:" + Default(pr, "current"),
                observedAt, Some(if o.success then "MERGE_REQUESTED" else "MERGE_FAILED"),
                Some(GithubPr(repo, NumberOfDigits(pr), None))))
    case PrView(repo, pr) =>
      var shown := Default(OrElse(o.prNumber, pr), "current");
      var target := if o.prUrl.Some? then o.prUrl.value
                    else if Present(repo) then repo.value + "#" + shown else "pull-request:" + shown;
      var status := if !o.success || o.prState == Some("CLOSED") then Failed
                    else if o.prState == Some("OPEN") || o.prState == Some("MERGED") then Passed else Inconclusive;
      Some(Make(if o.prState == Some("MERGED") then ActMerge else ActPullRequest, status, ByGithub,
                Bounded(target, "pull-request:current"), observedAt, o.prState,
                Some(GithubPr(OrElse(o.prRepository, repo), NumberOfDigits(OrElse(o.prNumber, pr)),
                              PrStateOf(o.prState)))))
    case ReleaseCreate(repo, tag, draft) =>
      Some(Make(ActPublish, Judge(o.success, false), ByGithub,
                if Present(repo) then repo.value + ":" + Default(tag, "release")
                else "github-release:" + Default(tag, "current"),
                observedAt, Some(if draft then "DRAFT_CREATED" else "RELEASE_CREATED_UNVERIFIED"),
                Some(GithubRelease(repo, tag, None, None))))
    case ReleaseView(repo, tag) =>
      var repository := OrElse(o.releaseRepository, repo);
      var tagName := OrElse(o.releaseTag, tag);
      var status := if !o.success then Failed
                    else if IsPublished(o) then Passed
                    else if o.releaseDraft == Some(true) || o.releasePublished == ReportedNull then Failed
                    else Inconclusive;
      Some(Make(ActPublish, status, ByGithub,
                if Present(repository) then repository.value + ":" + Default(tagName, "release")
                else "github-release:" + Default(tagName, "current"),
                observedAt,
                if IsPublished(o) then Some(Default(tagName, "release") + "@" + o.releasePublished.text)
                else if o.releaseDraft == Some(true) then Some("DRAFT") else None,
                Some(GithubRelease(repository, tagName, o.releaseDraft,
                                   if o.releasePublished.Reported? then Some(o.releasePublished.text) else None))))
    case Unrecognized => None
  }

  /** The captures that end up in the details are within the validator's limits. */
  predicate CapturesWithinLimits(inv: Invocation, o: Output) {
    match inv
    case GitPush => Short(o.pushRemote) && Short(o.pushBranch) && Short(o.pushCommit)
    case Publish =>
      Present(o.publishedName) ==> |o.publishedName.value| <= MAX_PACKAGE_NAME && Short(o.publishedVersion)
    case View(view) => |view.packageName| <= MAX_PACKAGE_NAME && Short(o.viewValue)
    case PrCreate(repo) =>
      Short(OrElse(o.prRepository, repo)) && (Present(o.prNumber) ==> GoodNumber(Some(o.prNumeric)))
    case PrMerge(repo, pr) => Short(repo) && GoodNumber(NumberOfDigits(pr))
    case PrView(repo, pr) =>
      Short(OrElse(o.prRepository, repo)) && GoodNumber(NumberOfDigits(OrElse(o.prNumber, pr)))
    case ReleaseCreate(repo, tag, _) => Short(repo) && Short(tag)
    case ReleaseView(repo, tag) =>
      && Short(OrElse(o.releaseRepository, repo)) && Short(OrElse(o.releaseTag, tag))
      && (o.releasePublished.Reported? ==> |o.releasePublished.text| <= MAX_TEXT)
    case Unrecognized => true
  }

  lemma ViewNamesAPackage(args: seq<string>)
    ensures ParseView(args).Some? ==> NamesPackage(View(ParseView(args).value))
  {
  }

  /** What the command-line parser guarantees about the package it names. */
  predicate NamesPackage(inv: Invocation) {
    inv.View? ==> inv.view.packageName != "" && inv.view.field != FieldPublish
                  && (inv.view.requestedVersion.Some? ==> inv.view.requestedVersion.value != "")
  }

  lemma {:induction false} ClassifiedNamesPackage(name: string, command: Option<string>)
    ensures NamesPackage(Classify(name, command))
  {
    var inv := Classify(name, command);
    if inv.View? {
      var raw := ShellWords.Words(command.value).value;
      ViewNamesAPackage(raw[2..]);
    }
  }

  lemma PackageLimits(inv: Invocation, o: Output, t: real)
    requires t >= 0.0 && NamesPackage(inv) && (inv.GitPush? || inv.Publish? || inv.View?)
    ensures WellFormed(Derive(inv, o, t).value) <==> CapturesWithinLimits(inv, o)
  {
    var a := Derive(inv, o, t).value;
    assert Consistent(a);
  }

  lemma PrCreateLimits(inv: Invocation, o: Output, t: real)
    requires t >= 0.0 && inv.PrCreate?
    ensures WellFormed(Derive(inv, o, t).value) <==> CapturesWithinLimits(inv, o)
  {
    var a := Derive(inv, o, t).value;
    assert Consistent(a);
  }

  lemma PrMergeLimits(inv: Invocation, o: Output, t: real)
    requires t >= 0.0 && inv.PrMerge?
    ensures WellFormed(Derive(inv, o, t).value) <==> CapturesWithinLimits(inv, o)
  {
    var a := Derive(inv, o, t).value;
    assert Consistent(a);
  }

  lemma PrViewLimits(inv: Invocation, o: Output, t: real)
    requires t >= 0.0 && inv.PrView?
    ensures WellFormed(Derive(inv, o, t).value) <==> CapturesWithinLimits(inv, o)
  {
    var a := Derive(inv, o, t).value;
    assert Consistent(a);
  }

  lemma ReleaseCreateLimits(inv: Invocation, o: Output, t: real)
    requires t >= 0.0 && inv.ReleaseCreate?
    ensures WellFormed(Derive(inv, o, t).value) <==> CapturesWithinLimits(inv, o)
  {
    var a := Derive(inv, o, t).value;
    assert Consistent(a);
  }

  lemma ReleaseViewLimits(inv: Invocation, o: Output, t: real)
    requires t >= 0.0 && inv.ReleaseView?
    ensures WellFormed(Derive(inv, o, t).value) <==> CapturesWithinLimits(inv, o)
  {
    var a := Derive(inv, o, t).value;
    assert Consistent(a);
  }

  /** A derived assertion is well formed exactly when the captured fields are within the limits. */
  lemma {:induction false} DerivedIsWellFormed(inv: Invocation, o: Output, t: real)
    requires t >= 0.0 && NamesPackage(inv) && Derive(inv, o, t).Some?
    ensures WellFormed(Derive(inv, o, t).value) <==> CapturesWithinLimits(inv, o)
  {
    match inv
    case PrCreate(_) => PrCreateLimits(inv, o, t);
    case PrMerge(_, _) => PrMergeLimits(inv, o, t);
    case PrView(_, _) => PrViewLimits(inv, o, t);
    case ReleaseCreate(_, _, _) => ReleaseCreateLimits(inv, o, t);
    case ReleaseView(_, _) => ReleaseViewLimits(inv, o, t);
    case _ => PackageLimits(inv, o, t);
  }

  // ----- Binding --------------------------------------------------------------------------------

  const MAX_TRANSPORT_AGE: real := 300000.0

  /** Both present and equal up to case. */
  predicate SameText(left: Option<Json>, right: string) {
    left.Some? && left.value.Str? && left.value.s != "" && right != "" && Lower(left.value.s) == Lower(right)
  }

  predicate RepositoryAgrees(d: Record, repo: Option<string>) {
    Present(repo) ==>
      && (Get(d, "kind") == Some(Str("github_pr")) || Get(d, "kind") == Some(Str("github_release")))
      && SameText(Get(d, "repository"), repo.value)
  }

  function StripV(s: string): string { if s != "" && s[0] == 'v' then s[1..] else s }

  function ComparableVersion(s: string): string { StripV(Lower(Trim(s))) }

  predicate SameVersion(version: Option<Json>, requested: string) {
    version.Some? && version.value.Str? && ComparableVersion(version.value.s) == ComparableVersion(requested)
  }

  predicate Says(r: Record, key: string, text: string) { Get(r, key) == Some(Str(text)) }

  /** Observed no later than now and less than five minutes ago. */
  predicate Fresh(r: Record, now: real) {
    match Get(r, "observedAt")
    case Some(time) =>
      RealOf(time).Some? && RealOf(time).value <= now && now - RealOf(time).value < MAX_TRANSPORT_AGE
    case None => false
  }

  /** `===` between numbers: a negative zero equals zero. */
  predicate EqualsNumber(left: Option<Json>, right: Option<JsNumber>) {
    left == NumberJson(right) || (left == Some(MinusZero) && right == Some(Finite(0.0)))
  }

  predicate ShowsOpenPr(d: Record) {
    Says(d, "state", "OPEN") && Truthy(Get(d, "prNumber")) && Truthy(Get(d, "repository"))
  }

  predicate MatchesInvocation(r: Record, inv: Invocation, success: bool, skipped: bool, now: real) {
    !skipped && (success || Says(r, "status", "failed")) && Fresh(r, now) && MatchesKind(r, inv)
  }

  /** The part of the match that depends on the command. */
  predicate MatchesKind(r: Record, inv: Invocation) {
    var d := DetailsOf(r);
    var passed := Says(r, "status", "passed");
    match inv
    case GitPush =>
      && Says(r, "provider", "git") && Says(r, "action", "push") && Says(d, "kind", "git_push")
      && (passed ==> Truthy(Get(d, "remote")) && Truthy(Get(d, "branch")) && Truthy(Get(d, "commit")))
    case Publish =>
      && Says(r, "provider", "npm") && Says(r, "action", "publish") && Says(d, "kind", "npm")
      && Says(d, "field", "publish")
      && (passed ==> Truthy(Get(d, "packageName")) && Truthy(Get(d, "version")))
    case View(view) =>
      && Says(r, "provider", "npm") && Says(r, "action", "registry") && Says(d, "kind", "npm")
      && Says(d, "field", FieldName(view.field)) && SameText(Get(d, "packageName"), view.packageName)
      && (Present(view.requestedVersion) ==> SameVersion(Get(d, "version"), view.requestedVersion.value))
      && (passed ==> Truthy(Get(d, "version")))
    case PrCreate(repo) =>
      && Says(r, "provider", "github") && Says(r, "action", "pull_request") && Says(d, "kind", "github_pr")
      && RepositoryAgrees(d, repo) && (passed ==> ShowsOpenPr(d))
    case PrMerge(repo, _) =>
      && Says(r, "provider", "github") && Says(r, "action", "merge") && !passed && Says(d, "kind", "github_pr")
      && RepositoryAgrees(d, repo)
    case PrView(repo, pr) =>
      && Says(r, "provider", "github") && Says(d, "kind", "github_pr") && RepositoryAgrees(d, repo)
      && (pr.Some? && AllDigits(pr.value) ==> EqualsNumber(Get(d, "prNumber"), NumberOfDigits(pr)))
      && (passed ==> (Says(r, "action", "merge") && Says(d, "state", "MERGED"))
                     || (Says(r, "action", "pull_request") && Says(d, "state", "OPEN")))
    case ReleaseCreate(repo, _, _) =>
      && Says(r, "provider", "github") && Says(r, "action", "publish") && !passed
      && Says(d, "kind", "github_release") && RepositoryAgrees(d, repo)
    case ReleaseView(repo, tag) =>
      && Says(r, "provider", "github") && Says(r, "action", "publish") && Says(d, "kind", "github_release")
      && RepositoryAgrees(d, repo) && (Present(tag) ==> SameText(Get(d, "tagName"), tag.value))
      && (passed ==> Get(d, "isDraft") == Some(Bool(false)) && Truthy(Get(d, "publishedAt")))
    case Unrecognized => false
  }

  // ----- Derivation and binding agree -----------------------------------------------------------

  predicate SameName(left: Option<string>, right: string) {
    Present(left) && right != "" && Lower(left.value) == Lower(right)
  }

  predicate RepositorySeen(seen: Option<string>, repo: Option<string>) {
    Present(repo) ==> SameName(seen, repo.value)
  }

  /** The identity read from the output is there and is the one the command line asked for. */
  predicate IdentityAgrees(inv: Invocation, o: Output) {
    match inv
    case GitPush => true
    case Publish => Present(o.publishedName)
    case View(view) =>
      Present(view.requestedVersion) ==>
        o.viewValue.Some? && ComparableVersion(o.viewValue.value) == ComparableVersion(view.requestedVersion.value)
    case PrCreate(repo) =>
      var seen := OrElse(o.prRepository, repo);
      Present(seen) && RepositorySeen(seen, repo)
    case PrView(repo, pr) =>
      && RepositorySeen(OrElse(o.prRepository, repo), repo)
      && (pr.Some? && AllDigits(pr.value) ==>
            NumberOfDigits(OrElse(o.prNumber, pr)) == NumberOfDigits(pr))
    case ReleaseView(repo, tag) =>
      && RepositorySeen(OrElse(o.releaseRepository, repo), repo)
      && (Present(tag) ==> SameName(OrElse(o.releaseTag, tag), tag.value))
    case PrMerge(_, _) => false
    case ReleaseCreate(_, _, _) => false
    case Unrecognized => false
  }

  lemma NpmRecord(d: Details)
    requires d.Npm?
    ensures var r := WriteDetails(d);
          && Says(r, "kind", "npm") && Says(r, "field", FieldName(d.field))
            && Says(r, "packageName", d.packageName) && Get(r, "version") == StringJson(d.version)
  {
  }

  lemma PrRecord(d: Details)
    requires d.GithubPr?
    ensures var r := WriteDetails(d);
          && Says(r, "kind", "github_pr") && Get(r, "repository") == StringJson(d.repository)
            && Get(r, "prNumber") == NumberJson(d.prNumber) && Get(r, "state") == StateJson(d.state)
  {
    var r1 := With(map["kind" := Str("github_pr")], "repository", StringJson(d.repository));
    var r2 := With(r1, "prNumber", NumberJson(d.prNumber));
    assert Get(r1, "state") == None && Get(r1, "prNumber") == None;
    assert Get(r2, "repository") == StringJson(d.repository) && Get(r2, "state") == None;
  }

  lemma ReleaseRecord(d: Details)
    requires d.GithubRelease?
    ensures var r := WriteDetails(d);
          && Says(r, "kind", "github_release") && Get(r, "repository") == StringJson(d.repository)
            && Get(r, "tagName") == StringJson(d.tagName) && Get(r, "isDraft") == BoolJson(d.isDraft)
            && Get(r, "publishedAt") == StringJson(d.publishedAt)
  {
    var r1 := With(map["kind" := Str("github_release")], "repository", StringJson(d.repository));
    var r2 := With(r1, "tagName", StringJson(d.tagName));
    var r3 := With(r2, "isDraft", BoolJson(d.isDraft));
    assert Get(r1, "tagName") == None && Get(r1, "isDraft") == None && Get(r1, "publishedAt") == None;
    assert Get(r2, "repository") == StringJson(d.repository) && Get(r2, "isDraft") == None
        && Get(r2, "publishedAt") == None;
    assert Get(r3, "repository") == StringJson(d.repository) && Get(r3, "tagName") == StringJson(d.tagName);
    assert Get(r3, "publishedAt") == None;
  }

  lemma PushRecord(d: Details)
    requires d.Push?
    ensures var r := WriteDetails(d);
          && Says(r, "kind", "git_push") && Get(r, "remote") == StringJson(d.remote)
            && Get(r, "branch") == StringJson(d.branch) && Get(r, "commit") == StringJson(d.commit)
  {
  }

  /** What the matcher reads from the header of a passed assertion's record. */
  ghost predicate PassedHeader(r: Record, a: Assertion) {
    && Says(r, "status", "passed") && Says(r, "provider", ProviderName(a.provider))
    && Says(r, "action", ActionName(a.action)) && Get(r, "observedAt") == Some(Number(a.observedAt))
    && DetailsOf(r) == if a.details.None? then map[] else WriteDetails(a.details.value)
  }

  lemma PassedIsWritten(a: Assertion)
    requires a.status == Passed
    ensures PassedHeader(Write(a), a)
  {
    ReadHeaderUndoesWrite(a);
  }

  lemma TextIsTruthy(o: Option<string>)
    ensures Truthy(StringJson(o)) <==> Present(o)
  {
  }

  lemma PushIsBound(r: Record, a: Assertion)
    requires PassedHeader(r, a) && a.provider == ByGit && a.action == ActPush && a.details.Some?
          && a.details.value.Push?
    ensures var d := a.details.value;
            MatchesKind(r, GitPush) <==> Present(d.remote) && Present(d.branch) && Present(d.commit)
  {
    PushRecord(a.details.value);
  }

  lemma PublishIsBound(r: Record, a: Assertion)
    requires PassedHeader(r, a) && a.provider == ByNpm && a.action == ActPublish
    requires a.details.Some? ==> a.details.value.Npm? && a.details.value.field == FieldPublish
    ensures MatchesKind(r, Publish)
       <==> a.details.Some? && a.details.value.packageName != "" && Present(a.details.value.version)
  {
    if a.details.Some? {
      NpmRecord(a.details.value);
    } else {
      assert Get(DetailsOf(r), "kind") == None;
    }
  }

  lemma ViewIsBound(r: Record, a: Assertion, view: NpmView)
    requires PassedHeader(r, a) && a.provider == ByNpm && a.action == ActRegistry && view.packageName != ""
    requires a.details.Some? && a.details.value.Npm? && Present(a.details.value.version)
    requires a.details.value.field == view.field && a.details.value.packageName == view.packageName
    ensures MatchesKind(r, View(view))
       <==> (Present(view.requestedVersion) ==>
               ComparableVersion(a.details.value.version.value) == ComparableVersion(view.requestedVersion.value))
  {
    NpmRecord(a.details.value);
  }

  lemma RepositoryIsBound(d: Record, seen: Option<string>, repo: Option<string>)
    requires Says(d, "kind", "github_pr") || Says(d, "kind", "github_release")
    requires Get(d, "repository") == StringJson(seen)
    ensures RepositoryAgrees(d, repo) <==> RepositorySeen(seen, repo)
  {
  }

  lemma PrCreateIsBound(r: Record, a: Assertion, repo: Option<string>)
    requires PassedHeader(r, a) && a.provider == ByGithub && a.action == ActPullRequest
    requires a.details.Some? && a.details.value.GithubPr? && a.details.value.state == Some(Open)
    requires a.details.value.prNumber.Some? && TruthyNumber(a.details.value.prNumber.value)
    ensures MatchesKind(r, PrCreate(repo))
       <==> Present(a.details.value.repository) && RepositorySeen(a.details.value.repository, repo)
  {
    var details, d := a.details.value, DetailsOf(r);
    PrRecord(details);
    RepositoryIsBound(d, details.repository, repo);
    TextIsTruthy(details.repository);
    assert ShowsOpenPr(d) <==> Present(details.repository);
  }

  lemma PrViewIsBound(r: Record, a: Assertion, repo: Option<string>, pr: Option<string>)
    requires PassedHeader(r, a) && a.provider == ByGithub && a.details.Some? && a.details.value.GithubPr?
    requires (a.action == ActMerge && a.details.value.state == Some(Merged))
          || (a.action == ActPullRequest && a.details.value.state == Some(Open))
    requires a.details.value.prNumber != Some(NegativeZero)
    ensures MatchesKind(r, PrView(repo, pr))
       <==> RepositorySeen(a.details.value.repository, repo)
            && (pr.Some? && AllDigits(pr.value) ==> a.details.value.prNumber == NumberOfDigits(pr))
  {
    var details, d := a.details.value, DetailsOf(r);
    PrRecord(details);
    RepositoryIsBound(d, details.repository, repo);
    SameNumber(details.prNumber, NumberOfDigits(pr));
  }

  lemma SameNumber(a: Option<JsNumber>, b: Option<JsNumber>)
    ensures NumberJson(a) == NumberJson(b) <==> a == b
  {
  }

  lemma ReleaseIsBound(r: Record, a: Assertion, repo: Option<string>, tag: Option<string>)
    requires PassedHeader(r, a) && a.provider == ByGithub && a.action == ActPublish
    requires a.details.Some? && a.details.value.GithubRelease? && a.details.value.isDraft == Some(false)
    requires Present(a.details.value.publishedAt)
    ensures MatchesKind(r, ReleaseView(repo, tag))
       <==> RepositorySeen(a.details.value.repository, repo)
            && (Present(tag) ==> SameName(a.details.value.tagName, tag.value))
  {
    var details, d := a.details.value, DetailsOf(r);
    ReleaseRecord(details);
    RepositoryIsBound(d, details.repository, repo);
    TextIsTruthy(details.publishedAt);
  }

  /**
   Numbers from 2^53 on are compared as rounded, so different digits may agree; within the validator's
   limits they cannot: the pull request that is shown is the one that was asked for.
   */
  lemma ViewedIsRequested(repo: Option<string>, pr: Option<string>, o: Output)
    requires IdentityAgrees(PrView(repo, pr), o) && CapturesWithinLimits(PrView(repo, pr), o)
    requires pr.Some? && AllDigits(pr.value)
    ensures var shown := OrElse(o.prNumber, pr);
            AllDigits(shown.value) && Decimal(shown.value) == Decimal(pr.value)
  {
    SafeNumbersAreExact(Decimal(OrElse(o.prNumber, pr).value), Decimal(pr.value));
  }

  ghost predicate PassedJustNow(inv: Invocation, o: Output, t: real, now: real) {
    && t <= now && now - t < MAX_TRANSPORT_AGE && NamesPackage(inv)
    && Derive(inv, o, t).Some? && Derive(inv, o, t).value.status == Passed
  }

  lemma PackageIsBound(inv: Invocation, o: Output, t: real, now: real)
    requires PassedJustNow(inv, o, t, now) && (inv.GitPush? || inv.Publish? || inv.View?)
    ensures MatchesKind(Write(Derive(inv, o, t).value), inv) <==> IdentityAgrees(inv, o)
  {
    var a := Derive(inv, o, t).value;
    PassedIsWritten(a);
    match inv
    case GitPush => PushIsBound(Write(a), a);
    case Publish => PublishIsBound(Write(a), a);
    case View(view) => ViewIsBound(Write(a), a, view);
    case _ =>
  }

  lemma PullRequestIsBound(inv: Invocation, o: Output, t: real, now: real)
    requires PassedJustNow(inv, o, t, now) && (inv.PrCreate? || inv.PrView?)
    ensures MatchesKind(Write(Derive(inv, o, t).value), inv) <==> IdentityAgrees(inv, o)
  {
    var a := Derive(inv, o, t).value;
    PassedIsWritten(a);
    match inv
    case PrCreate(repo) => PrCreateIsBound(Write(a), a, repo);
    case PrView(repo, pr) => PrViewIsBound(Write(a), a, repo, pr);
    case _ =>
  }

  lemma PublishedReleaseIsBound(inv: Invocation, o: Output, t: real, now: real)
    requires PassedJustNow(inv, o, t, now) && inv.ReleaseView?
    ensures MatchesKind(Write(Derive(inv, o, t).value), inv) <==> IdentityAgrees(inv, o)
  {
    var a := Derive(inv, o, t).value;
    PassedIsWritten(a);
    ReleaseIsBound(Write(a), a, inv.repo, inv.tag);
  }

  lemma PassedIsFresh(inv: Invocation, o: Output, t: real, now: real)
    requires PassedJustNow(inv, o, t, now)
    ensures o.success && Fresh(Write(Derive(inv, o, t).value), now)
  {
    PassedIsWritten(Derive(inv, o, t).value);
  }

  /**
   A passed assertion is accepted for the invocation it was derived from, within five minutes,
   exactly when the identity in the output is present and agrees with the command line.
   */
  lemma {:induction false} PassedIsBound(inv: Invocation, o: Output, t: real, now: real)
    requires PassedJustNow(inv, o, t, now)
    ensures MatchesInvocation(Write(Derive(inv, o, t).value), inv, o.success, false, now) <==> IdentityAgrees(inv, o)
  {
    PassedIsFresh(inv, o, t, now);
    if inv.GitPush? || inv.Publish? || inv.View? {
      PackageIsBound(inv, o, t, now);
    } else if inv.PrCreate? || inv.PrView? {
      PullRequestIsBound(inv, o, t, now);
    } else {
      PublishedReleaseIsBound(inv, o, t, now);
    }
  }
}
