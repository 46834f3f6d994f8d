/**
 External assertions: typed claims about side effects on npm, GitHub and git remotes, carried through
 JSON and validated when they come back.
 */
module ExternalAssertion {
  import opened Json
  import opened Text
  import opened CommandLine
  import opened Doubles

  // ----- Assertions -----------------------------------------------------------------------------

  datatype Action = ActPublish | ActPullRequest | ActMerge | ActRegistry | ActPush
  datatype Status = Passed | Failed | Inconclusive
  datatype Provider = ByNpm | ByGithub | ByGit
  datatype PrState = Open | Merged | Closed

  datatype Details =
    | Npm(packageName: string, version: Option<string>, field: NpmField)
    | GithubPr(repository: Option<string>, prNumber: Option<JsNumber>, state: Option<PrState>)
    | GithubRelease(repository: Option<string>, tagName: Option<string>, isDraft: Option<bool>,
                    publishedAt: Option<string>)
    | Push(remote: Option<string>, branch: Option<string>, commit: Option<string>)

  datatype Assertion = Assertion(
    action: Action, status: Status, provider: Provider, target: string, observedValue: Option<string>,
    observedAt: real, details: Option<Details>)

  const MAX_TEXT: nat := 512
  const MAX_PACKAGE_NAME: nat := 214

  predicate Short(o: Option<string>) { o.Some? ==> |o.value| <= MAX_TEXT }

  predicate IsSafeInteger(r: real) {
    r.Floor as real == r && -MAX_SAFE_INTEGER <= r.Floor <= MAX_SAFE_INTEGER
  }

  predicate GoodNumber(o: Option<JsNumber>) {
    o.Some? ==> o.value.Finite? && IsSafeInteger(o.value.value) && o.value.value > 0.0
  }

  predicate DetailsWithinLimits(d: Details) {
    match d
    case Npm(name, version, _) => 0 < |name| <= MAX_PACKAGE_NAME && Short(version)
    case GithubPr(repository, number, _) => Short(repository) && GoodNumber(number)
    case GithubRelease(repository, tag, _, published) => Short(repository) && Short(tag) && Short(published)
    case Push(remote, branch, commit) => Short(remote) && Short(branch) && Short(commit)
  }

  /** What an assertion's details must say for its provider, action and status. */
  predicate Consistent(a: Assertion) {
    match a.details
    case None => true
    case Some(Npm(_, _, field)) =>
      a.provider == ByNpm && ((a.action == ActPublish && field == FieldPublish)
                              || (a.action == ActRegistry && field != FieldPublish))
    case Some(GithubPr(_, _, state)) =>
      && a.provider == ByGithub && (a.action == ActPullRequest || a.action == ActMerge)
      && (a.status == Passed ==> state == Some(if a.action == ActMerge then Merged else Open))
    case Some(GithubRelease(_, _, isDraft, publishedAt)) =>
      && a.provider == ByGithub && a.action == ActPublish
      && (a.status == Passed ==> isDraft == Some(false) && publishedAt.Some? && publishedAt.value != "")
    case Some(Push(_, _, _)) => a.provider == ByGit && a.action == ActPush
  }

  /** A well-formed assertion. */
  predicate WellFormed(a: Assertion) {
    && Trim(a.target) != "" && |a.target| <= MAX_TEXT && Short(a.observedValue) && a.observedAt >= 0.0
    && (a.details.Some? ==> DetailsWithinLimits(a.details.value)) && Consistent(a)
  }

  // ----- Transport ------------------------------------------------------------------------------

  function ActionName(a: Action): string {
    match a
    case ActPublish => "publish"
    case ActPullRequest => "pull_request"
    case ActMerge => "merge"
    case ActRegistry => "registry"
    case ActPush => "push"
  }

  function StatusName(s: Status): string {
    match s
    case Passed => "passed"
    case Failed => "failed"
    case Inconclusive => "inconclusive"
  }

  function ProviderName(p: Provider): string {
    match p
    case ByNpm => "npm"
    case ByGithub => "github"
    case ByGit => "git"
  }

  function FieldName(f: NpmField): string {
    match f
    case FieldPublish => "publish"
    case FieldVersion => "version"
    case FieldLatest => "dist-tags.latest"
  }

  function StateName(s: PrState): string {
    match s
    case Open => "OPEN"
    case Merged => "MERGED"
    case Closed => "CLOSED"
  }

  /** A record with an optional field: an undefined one is not written. */
  function With(record: Record, key: string, value: Option<Json>): (r: Record)
    ensures value.None? ==> r == record
    ensures value.Some? ==> r == record[key := value.value]
  {
    if value.None? then record else record[key := value.value]
  }

  function StringJson(o: Option<string>): Option<Json> { if o.None? then None else Some(Str(o.value)) }

  function NumberJson(o: Option<JsNumber>): Option<Json> {
    match o
    case None => None
    case Some(NaN) => Some(NotANumber)
    case Some(Infinity(negative)) => Some(Infinite(negative))
    case Some(NegativeZero) => Some(MinusZero)
    case Some(Finite(value)) => Some(Number(value))
  }

  function StateJson(o: Option<PrState>): Option<Json> {
    if o.None? then None else Some(Str(StateName(o.value)))
  }

  function BoolJson(o: Option<bool>): Option<Json> { if o.None? then None else Some(Bool(o.value)) }

  function WriteDetails(d: Details): Record {
    match d
    case Npm(name, version, field) =>
      With(map["kind" := Str("npm"), "packageName" := Str(name), "field" := Str(FieldName(field))],
           "version", StringJson(version))
    case GithubPr(repository, number, state) =>
      With(With(With(map["kind" := Str("github_pr")], "repository", StringJson(repository)),
                "prNumber", NumberJson(number)), "state", StateJson(state))
    case GithubRelease(repository, tag, isDraft, published) =>
      With(With(With(With(map["kind" := Str("github_release")], "repository", StringJson(repository)),
                     "tagName", StringJson(tag)), "isDraft", BoolJson(isDraft)), "publishedAt", StringJson(published))
    case Push(remote, branch, commit) =>
      With(With(With(map["kind" := Str("git_push")], "remote", StringJson(remote)), "branch", StringJson(branch)),
           "commit", StringJson(commit))
  }

  /** The assertion as it is written into a tool result. */
  function Write(a: Assertion): Record {
    With(With(map["version" := Number(1.0), "action" := Str(ActionName(a.action)),
                  "status" := Str(StatusName(a.status)), "provider" := Str(ProviderName(a.provider)),
                  "target" := Str(a.target), "observedAt" := Number(a.observedAt)],
              "observedValue", StringJson(a.observedValue)),
         "details", if a.details.None? then None else Some(Obj(WriteDetails(a.details.value))))
  }

  // ----- The validator --------------------------------------------------------------------------

  /** A check on untyped JSON may also throw. */
  datatype Verdict = Yes | No | Throws

  function Check(b: bool): Verdict { if b then Yes else No }

  function And(a: Verdict, b: Verdict): Verdict { if a == Yes then b else a }

  predicate BoundedOptionalString(o: Option<Json>) {
    match o
    case None => true
    case Some(Str(s)) => |s| <= MAX_TEXT
    case Some(_) => false
  }

  /** `String(value)` fails: an object whose own `toString` is not a function. */
  predicate ConversionThrows(j: Json) {
    match j
    case Obj(fields) => "toString" in fields
    case Arr(items) => exists i :: 0 <= i < |items| && ConversionThrows(items[i])
    case _ => false
  }

  /**
   The text of `String(value)` when it can be one of the expected words: a one-element array converts
   like its element.
   */
  function Converted(j: Json): Option<string> {
    match j
    case Str(s) => Some(s)
    case Arr(items) => if |items| == 1 then Converted(items[0]) else None
    case _ => None
  }

  function IsOneOf(words: seq<string>, o: Option<Json>): Verdict {
    match o
    case None => No
    case Some(j) =>
      if ConversionThrows(j) then Throws else Check(Converted(j).Some? && Converted(j).value in words)
  }

  predicate IsPositiveSafeInteger(o: Option<Json>) {
    match o
    case None => true
    case Some(Number(n)) => IsSafeInteger(n) && n > 0.0
    case Some(_) => false
  }

  const FIELD_WORDS: seq<string> := ["publish", "version", "dist-tags.latest"]
  const STATE_WORDS: seq<string> := ["OPEN", "MERGED", "CLOSED"]

  function IsAssertionDetails(j: Json): Verdict {
    match j
    case Obj(r) =>
      var kind := Get(r, "kind");
      if kind == Some(Str("npm")) then
        And(Check(match Get(r, "packageName")
                  case Some(Str(name)) => 0 < |name| <= MAX_PACKAGE_NAME && BoundedOptionalString(Get(r, "version"))
                  case _ => false),
            IsOneOf(FIELD_WORDS, Get(r, "field")))
      else if kind == Some(Str("github_pr")) then
        And(Check(BoundedOptionalString(Get(r, "repository")) && IsPositiveSafeInteger(Get(r, "prNumber"))),
            if "state" !in r then Yes else IsOneOf(STATE_WORDS, Get(r, "state")))
      else if kind == Some(Str("github_release")) then
        Check(BoundedOptionalString(Get(r, "repository")) && BoundedOptionalString(Get(r, "tagName"))
              && ("isDraft" in r ==> r["isDraft"].Bool?) && BoundedOptionalString(Get(r, "publishedAt")))
      else if kind == Some(Str("git_push")) then
        Check(BoundedOptionalString(Get(r, "remote")) && BoundedOptionalString(Get(r, "branch"))
              && BoundedOptionalString(Get(r, "commit")))
      else No
    case _ => No
  }

  function DetailsOf(r: Record): Record {
    match Get(r, "details")
    case Some(Obj(d)) => d
    case _ => map[]
  }

  /** A value that JavaScript takes as true. */
  predicate Truthy(o: Option<Json>) {
    match o
    case None => false
    case Some(Null) => false
    case Some(Bool(b)) => b
    case Some(Number(n)) => n != 0.0
    case Some(MinusZero) => false
    case Some(NotANumber) => false
    case Some(Str(s)) => s != ""
    case Some(_) => true
  }

  predicate DetailsAreConsistent(r: Record) {
    "details" in r ==>
      var d := DetailsOf(r);
      var kind := Get(d, "kind");
      var provider, action, status := Get(r, "provider"), Get(r, "action"), Get(r, "status");
      if kind == Some(Str("npm")) then
        && provider == Some(Str("npm"))
        && ((action == Some(Str("publish")) && Get(d, "field") == Some(Str("publish")))
            || (action == Some(Str("registry")) && Get(d, "field") != Some(Str("publish"))))
      else if kind == Some(Str("github_pr")) then
        && provider == Some(Str("github"))
        && (action == Some(Str("pull_request")) || action == Some(Str("merge")))
        && (status == Some(Str("passed")) ==>
              || (action == Some(Str("pull_request")) && Get(d, "state") == Some(Str("OPEN")))
              || (action == Some(Str("merge")) && Get(d, "state") == Some(Str("MERGED"))))
      else if kind == Some(Str("github_release")) then
        && provider == Some(Str("github")) && action == Some(Str("publish"))
        && (status == Some(Str("passed")) ==> Get(d, "isDraft") == Some(Bool(false)) && Truthy(Get(d, "publishedAt")))
      else provider == Some(Str("git")) && action == Some(Str("push"))
  }

  predicate IsName(o: Option<Json>, names: seq<string>) { o.Some? && o.value.Str? && o.value.s in names }

  const ACTION_NAMES: seq<string> := ["publish", "pull_request", "merge", "registry", "push"]
  const STATUS_NAMES: seq<string> := ["passed", "failed", "inconclusive"]
  const PROVIDER_NAMES: seq<string> := ["npm", "github", "git"]

  /** The checks before the details. */
  predicate HeaderIsGood(r: Record) {
    && Get(r, "version") == Some(Number(1.0))
    && IsName(Get(r, "action"), ACTION_NAMES) && IsName(Get(r, "status"), STATUS_NAMES)
    && IsName(Get(r, "provider"), PROVIDER_NAMES)
    && (match Get(r, "target") case Some(Str(t)) => Trim(t) != "" && |t| <= MAX_TEXT case _ => false)
    && BoundedOptionalString(Get(r, "observedValue"))
    && (match Get(r, "observedAt")
        case Some(time) => RealOf(time).Some? && RealOf(time).value >= 0.0
        case None => false)
  }

  function IsToolExternalAssertion(j: Json): Verdict {
    match j
    case Obj(r) =>
      And(Check(HeaderIsGood(r)),
          And(if "details" in r then IsAssertionDetails(r["details"]) else Yes, Check(DetailsAreConsistent(r))))
    case _ => No
  }

  // ----- Reading a typed assertion back ---------------------------------------------------------

  function ReadAction(s: string): Option<Action> {
    if s == "publish" then Some(ActPublish) else if s == "pull_request" then Some(ActPullRequest)
    else if s == "merge" then Some(ActMerge) else if s == "registry" then Some(ActRegistry)
    else if s == "push" then Some(ActPush) else None
  }

  function ReadStatus(s: string): Option<Status> {
    if s == "passed" then Some(Passed) else if s == "failed" then Some(Failed)
    else if s == "inconclusive" then Some(Inconclusive) else None
  }

  function ReadProvider(s: string): Option<Provider> {
    if s == "npm" then Some(ByNpm) else if s == "github" then Some(ByGithub)
    else if s == "git" then Some(ByGit) else None
  }

  function ReadField(s: string): Option<NpmField> {
    if s == "publish" then Some(FieldPublish) else if s == "version" then Some(FieldVersion)
    else if s == "dist-tags.latest" then Some(FieldLatest) else None
  }

  function ReadState(s: string): Option<PrState> {
    if s == "OPEN" then Some(Open) else if s == "MERGED" then Some(Merged)
    else if s == "CLOSED" then Some(Closed) else None
  }

  predicate TextOrAbsent(o: Option<Json>) { o.Some? ==> o.value.Str? }

  function ReadText(o: Option<Json>): Option<string>
    requires TextOrAbsent(o)
  {
    if o.None? then None else Some(o.value.s)
  }

  predicate IsNumber(j: Json) { j.Number? || j.MinusZero? || j.Infinite? || j.NotANumber? }

  function ReadNumber(o: Option<Json>): Option<JsNumber>
    requires o.Some? ==> IsNumber(o.value)
  {
    match o
    case None => None
    case Some(Number(n)) => Some(Finite(n))
    case Some(MinusZero) => Some(NegativeZero)
    case Some(Infinite(negative)) => Some(Infinity(negative))
    case Some(_) => Some(NaN)
  }

  function ReadDetails(d: Record): Option<Details> {
    var kind := Get(d, "kind");
    if kind == Some(Str("npm")) then
      var name, version, field := Get(d, "packageName"), Get(d, "version"), Get(d, "field");
      if name.Some? && name.value.Str? && TextOrAbsent(version) && field.Some? && field.value.Str?
         && ReadField(field.value.s).Some?
      then Some(Npm(name.value.s, ReadText(version), ReadField(field.value.s).value))
      else None
    else if kind == Some(Str("github_pr")) then
      var repository, number, state := Get(d, "repository"), Get(d, "prNumber"), Get(d, "state");
      if TextOrAbsent(repository) && (number.Some? ==> IsNumber(number.value))
         && (state.Some? ==> state.value.Str? && ReadState(state.value.s).Some?)
      then Some(GithubPr(ReadText(repository), ReadNumber(number),
                         if state.None? then None else ReadState(state.value.s)))
      else None
    else if kind == Some(Str("github_release")) then
      var repository, tag, draft, published :=
        Get(d, "repository"), Get(d, "tagName"), Get(d, "isDraft"), Get(d, "publishedAt");
      if TextOrAbsent(repository) && TextOrAbsent(tag) && (draft.Some? ==> draft.value.Bool?) && TextOrAbsent(published)
      then Some(GithubRelease(ReadText(repository), ReadText(tag),
                              if draft.None? then None else Some(draft.value.b), ReadText(published)))
      else None
    else if kind == Some(Str("git_push")) then
      var remote, branch, commit := Get(d, "remote"), Get(d, "branch"), Get(d, "commit");
      if TextOrAbsent(remote) && TextOrAbsent(branch) && TextOrAbsent(commit)
      then Some(Push(ReadText(remote), ReadText(branch), ReadText(commit)))
      else None
    else None
  }

  /** The typed assertion that a record holds, if all of its fields have the declared types. */
  function Read(r: Record): Option<Assertion> {
    var action, status, provider, target, value, time :=
      Get(r, "action"), Get(r, "status"), Get(r, "provider"), Get(r, "target"), Get(r, "observedValue"),
      Get(r, "observedAt");
    if Get(r, "version") == Some(Number(1.0))
       && action.Some? && action.value.Str? && ReadAction(action.value.s).Some?
       && status.Some? && status.value.Str? && ReadStatus(status.value.s).Some?
       && provider.Some? && provider.value.Str? && ReadProvider(provider.value.s).Some?
       && target.Some? && target.value.Str? && TextOrAbsent(value) && time.Some? && RealOf(time.value).Some?
       && ("details" in r ==> r["details"].Obj? && ReadDetails(r["details"].fields).Some?)
    then Some(Assertion(ReadAction(action.value.s).value, ReadStatus(status.value.s).value,
                        ReadProvider(provider.value.s).value, target.value.s, ReadText(value), RealOf(time.value).value,
                        if "details" in r then ReadDetails(r["details"].fields) else None))
    else None
  }

  lemma ReadNpmUndoesWrite(d: Details)
    requires d.Npm?
    ensures ReadDetails(WriteDetails(d)) == Some(d)
  {
  }

  lemma ReadPrUndoesWrite(d: Details)
    requires d.GithubPr?
    ensures ReadDetails(WriteDetails(d)) == Some(d)
  {
    var base: Record := map["kind" := Str("github_pr")];
    var r1 := With(base, "repository", StringJson(d.repository));
    var r2 := With(r1, "prNumber", NumberJson(d.prNumber));
    assert Get(r1, "state") == None && Get(r1, "prNumber") == None;
    assert Get(r2, "repository") == StringJson(d.repository);
  }

  lemma ReadReleaseUndoesWrite(d: Details)
    requires d.GithubRelease?
    ensures ReadDetails(WriteDetails(d)) == Some(d)
  {
  }

  lemma ReadPushUndoesWrite(d: Details)
    requires d.Push?
    ensures ReadDetails(WriteDetails(d)) == Some(d)
  {
  }

  lemma ReadDetailsUndoesWrite(d: Details)
    ensures ReadDetails(WriteDetails(d)) == Some(d)
  {
    match d
    case Npm(_, _, _) => ReadNpmUndoesWrite(d);
    case GithubPr(_, _, _) => ReadPrUndoesWrite(d);
    case GithubRelease(_, _, _, _) => ReadReleaseUndoesWrite(d);
    case Push(_, _, _) => ReadPushUndoesWrite(d);
  }

  lemma ReadHeaderUndoesWrite(a: Assertion)
    ensures var r := Write(a);
          && Get(r, "version") == Some(Number(1.0)) && Get(r, "action") == Some(Str(ActionName(a.action)))
            && Get(r, "status") == Some(Str(StatusName(a.status)))
            && Get(r, "provider") == Some(Str(ProviderName(a.provider)))
            && Get(r, "target") == Some(Str(a.target)) && Get(r, "observedAt") == Some(Number(a.observedAt))
            && Get(r, "observedValue") == StringJson(a.observedValue)
            && Get(r, "details") == if a.details.None? then None else Some(Obj(WriteDetails(a.details.value)))
  {
  }

  lemma NamesAreRead(a: Assertion)
    ensures ReadAction(ActionName(a.action)) == Some(a.action)
    ensures ReadStatus(StatusName(a.status)) == Some(a.status)
    ensures ReadProvider(ProviderName(a.provider)) == Some(a.provider)
  {
  }

  /** Reading undoes writing, for every assertion. */
  lemma {:induction false} ReadUndoesWrite(a: Assertion)
    ensures Read(Write(a)) == Some(a)
  {
    ReadHeaderUndoesWrite(a);
    NamesAreRead(a);
    if a.details.Some? {
      ReadDetailsUndoesWrite(a.details.value);
    }
  }

  /** The details hold no number that JSON text cannot. */
  predicate NumberIsWritable(d: Details) {
    d.GithubPr? && d.prNumber.Some? ==> d.prNumber.value.Finite?
  }

  predicate CanTravel(a: Assertion) { a.details.Some? ==> NumberIsWritable(a.details.value) }

  lemma OtherDetailsAreFlat(d: Details)
    requires !d.GithubPr?
    ensures forall k :: k in WriteDetails(d) ==> WriteDetails(d)[k].Str? || WriteDetails(d)[k].Bool?
  {
  }

  lemma PrDetailsAreFlat(d: Details)
    requires d.GithubPr?
    ensures forall k :: k in WriteDetails(d) && k != "prNumber" ==> WriteDetails(d)[k].Str?
  {
  }

  lemma {:induction false} DetailsAreFinite(d: Details)
    ensures AllCarried(Obj(WriteDetails(d))) <==> NumberIsWritable(d)
  {
    if d.GithubPr? {
      PrFields(d);
      PrDetailsAreFlat(d);
    } else {
      OtherDetailsAreFlat(d);
    }
  }

  lemma HeaderIsFlat(a: Assertion)
    ensures forall k :: k in Write(a) && k != "details" ==> Write(a)[k].Str? || Write(a)[k].Number?
  {
  }

  lemma {:induction false} WriteIsFinite(a: Assertion)
    ensures AllCarried(Obj(Write(a))) <==> CanTravel(a)
  {
    HeaderIsFlat(a);
    ReadHeaderUndoesWrite(a);
    if a.details.Some? {
      DetailsAreFinite(a.details.value);
      assert Write(a)["details"] == Obj(WriteDetails(a.details.value));
    }
  }

  lemma PrFields(d: Details)
    requires d.GithubPr?
    ensures Get(WriteDetails(d), "kind") == Some(Str("github_pr"))
    ensures Get(WriteDetails(d), "prNumber") == NumberJson(d.prNumber)
  {
    var r := With(map["kind" := Str("github_pr")], "repository", StringJson(d.repository));
    assert Get(r, "prNumber").None? && Get(r, "kind") == Some(Str("github_pr"));
  }

  lemma LostNumberIsZero(d: Record)
    requires Get(d, "kind") == Some(Str("github_pr"))
    requires Get(d, "prNumber") == Some(Null) || Get(d, "prNumber") == Some(Number(0.0))
    ensures ReadDetails(d).Some? ==>
              ReadDetails(d).value.GithubPr? && ReadDetails(d).value.prNumber == Some(Finite(0.0))
  {
  }

  /** Of a pull-request number that JSON text cannot carry, nothing arrives but a zero. */
  lemma {:induction false} LostNumberArrivesAsZero(a: Assertion)
    requires !CanTravel(a)
    ensures var arrived := Read(Carried(Obj(Write(a))).fields);
            arrived.Some? ==>
              var d := arrived.value.details;
              d.Some? && d.value.GithubPr? && d.value.prNumber == Some(Finite(0.0))
  {
    var details := WriteDetails(a.details.value);
    var carried := Carried(Obj(details)).fields;
    PrFields(a.details.value);
    assert carried["kind"] == Carried(details["kind"]) && carried["prNumber"] == Carried(details["prNumber"]);
    LostNumberIsZero(carried);
    ReadHeaderUndoesWrite(a);
    assert Carried(Obj(Write(a))).fields["details"] == Carried(Write(a)["details"]) == Obj(carried);
  }

  /** Through JSON text an assertion arrives as it was, exactly when JSON text can carry its number. */
  lemma {:induction false} ArrivesAsWritten(a: Assertion)
    ensures Read(Carried(Obj(Write(a))).fields) == Some(a) <==> CanTravel(a)
  {
    if CanTravel(a) {
      WriteIsFinite(a);
      ArrivesUnchanged(Obj(Write(a)));
      ReadUndoesWrite(a);
    } else {
      LostNumberArrivesAsZero(a);
    }
  }

  /** The word-valued field of the details, if there is one, is a string. */
  predicate WordsAreStrings(r: Record) {
    var d := DetailsOf(r);
    && (Get(d, "kind") == Some(Str("npm")) && "field" in d ==> d["field"].Str?)
    && (Get(d, "kind") == Some(Str("github_pr")) && "state" in d ==> d["state"].Str?)
  }

  lemma DetailsVerdict(d: Record)
    requires Get(d, "kind") == Some(Str("npm")) && "field" in d ==> d["field"].Str?
    requires Get(d, "kind") == Some(Str("github_pr")) && "state" in d ==> d["state"].Str?
    ensures IsAssertionDetails(Obj(d)) == Yes
       <==> ReadDetails(d).Some? && DetailsWithinLimits(ReadDetails(d).value)
  {
  }

  lemma ConsistencyAgrees(r: Record)
    requires Read(r).Some?
    ensures DetailsAreConsistent(r) <==> Consistent(Read(r).value)
  {
  }

  lemma HeaderAgrees(r: Record)
    requires Read(r).Some?
    ensures var a := Read(r).value;
            HeaderIsGood(r)
            <==> Trim(a.target) != "" && |a.target| <= MAX_TEXT && Short(a.observedValue) && a.observedAt >= 0.0
  {
  }

  lemma HeaderReads(r: Record)
    requires HeaderIsGood(r)
    requires "details" in r ==> r["details"].Obj? && ReadDetails(r["details"].fields).Some?
    ensures Read(r).Some?
  {
  }

  lemma TypedWordsAreStrings(r: Record)
    requires Read(r).Some?
    ensures WordsAreStrings(r)
  {
  }

  /**
   The validator is exact but for its word-valued fields: it accepts a record in which these are strings
   exactly when it is the record of a well-formed assertion, whatever other fields it carries.
   */
  lemma {:induction false} ValidatorIsExact(r: Record)
    ensures IsToolExternalAssertion(Obj(r)) == Yes && WordsAreStrings(r) <==> Read(r).Some? && WellFormed(Read(r).value)
  {
    if Read(r).Some? {
      TypedWordsAreStrings(r);
    }
    if WordsAreStrings(r) {
      TypedValidatorIsExact(r);
    }
  }

  lemma {:induction false} TypedValidatorIsExact(r: Record)
    requires WordsAreStrings(r)
    ensures IsToolExternalAssertion(Obj(r)) == Yes <==> Read(r).Some? && WellFormed(Read(r).value)
  {
    if "details" in r && r["details"].Obj? {
      DetailsVerdict(r["details"].fields);
    }
    if Read(r).Some? {
      ConsistencyAgrees(r);
      HeaderAgrees(r);
    } else if HeaderIsGood(r) && ("details" in r ==> r["details"].Obj? && ReadDetails(r["details"].fields).Some?) {
      HeaderReads(r);
    }
  }

  /** The word-valued field of the details is reached by the validator, and converting it to a string throws. */
  predicate DetailsThrow(d: Record) {
    || (&& Get(d, "kind") == Some(Str("npm"))
        && (match Get(d, "packageName")
            case Some(Str(name)) => 0 < |name| <= MAX_PACKAGE_NAME && BoundedOptionalString(Get(d, "version"))
            case _ => false)
        && "field" in d && ConversionThrows(d["field"]))
    || (&& Get(d, "kind") == Some(Str("github_pr"))
        && BoundedOptionalString(Get(d, "repository")) && IsPositiveSafeInteger(Get(d, "prNumber"))
        && "state" in d && ConversionThrows(d["state"]))
  }

  lemma {:induction false} DetailsThrowExactly(d: Record)
    ensures IsAssertionDetails(Obj(d)) == Throws <==> DetailsThrow(d)
  {
  }

  /**
   The validator throws exactly when everything before the word-valued field passes and that field,
   or an element of it when it is an array, is an object with an own `toString`.
   */
  lemma {:induction false} ThrowsExactly(r: Record)
    ensures IsToolExternalAssertion(Obj(r)) == Throws
       <==> HeaderIsGood(r) && "details" in r && r["details"].Obj? && DetailsThrow(r["details"].fields)
  {
    if "details" in r && r["details"].Obj? {
      DetailsThrowExactly(r["details"].fields);
    }
  }

  /** A record, good but for its field, on which the validator throws. */
  lemma OwnToStringThrows()
    ensures var d: Record := map["kind" := Str("npm"), "packageName" := Str("p"),
                                 "field" := Obj(map["toString" := Null])];
            var r := Write(Assertion(ActPublish, Passed, ByNpm, "t", None, 0.0, None))["details" := Obj(d)];
            IsToolExternalAssertion(Obj(r)) == Throws
  {
    var d: Record := map["kind" := Str("npm"), "packageName" := Str("p"), "field" := Obj(map["toString" := Null])];
    var a := Assertion(ActPublish, Passed, ByNpm, "t", None, 0.0, None);
    assert Trim("t") == "t";
    HeaderWithDetails(a, Obj(d));
    OwnToStringInField(d);
    ThrowsExactly(Write(a)["details" := Obj(d)]);
  }

  lemma OwnToStringInField(d: Record)
    requires Get(d, "kind") == Some(Str("npm")) && Get(d, "packageName") == Some(Str("p")) && Get(d, "version").None?
    requires Get(d, "field") == Some(Obj(map["toString" := Null]))
    ensures DetailsThrow(d)
  {
  }

  lemma HeaderWithDetails(a: Assertion, details: Json)
    requires Trim(a.target) != "" && |a.target| <= MAX_TEXT && Short(a.observedValue) && a.observedAt >= 0.0
    ensures HeaderIsGood(Write(a)["details" := details])
  {
    ReadHeaderUndoesWrite(a);
  }

  /** Details whose state is a one-element array pass for that state, but are not typed details. */
  lemma ArrayStatePasses(d: Record)
    requires Get(d, "kind") == Some(Str("github_pr")) && Get(d, "repository").None? && Get(d, "prNumber").None?
    requires Get(d, "state") == Some(Arr([Str("OPEN")]))
    ensures IsAssertionDetails(Obj(d)) == Yes && ReadDetails(d).None?
  {
    var state := Arr([Str("OPEN")]);
    assert Converted(Str("OPEN")) == Some("OPEN");
    assert Converted(state) == Some("OPEN") && !ConversionThrows(state);
    assert STATE_WORDS[0] == "OPEN";
    assert IsOneOf(STATE_WORDS, Some(state)) == Yes;
  }

  /** Outside that condition the type guard is unsound: a one-element array passes for its word. */
  lemma ArrayPassesForWord()
    ensures var d: Record := map["kind" := Str("github_pr"), "state" := Arr([Str("OPEN")])];
            var r := Write(Assertion(ActMerge, Failed, ByGithub, "t", None, 0.0, None))["details" := Obj(d)];
            IsToolExternalAssertion(Obj(r)) == Yes && Read(r).None?
  {
    var a := Assertion(ActMerge, Failed, ByGithub, "t", None, 0.0, None);
    var d: Record := map["kind" := Str("github_pr"), "state" := Arr([Str("OPEN")])];
    ArrayStatePasses(d);
    ReadHeaderUndoesWrite(a);
    assert Trim("t") == "t";
    WriteIsGood(a, Write(a)["details" := Obj(d)]);
  }

  lemma WriteIsGood(a: Assertion, r: Record)
    requires r == Write(a)["details" := DetailsJson(r)] && Trim(a.target) != "" && |a.target| <= MAX_TEXT
    requires Short(a.observedValue) && a.observedAt >= 0.0 && a.provider == ByGithub && a.action == ActMerge
          && a.status == Failed
    requires "details" in r && Get(DetailsOf(r), "kind") == Some(Str("github_pr"))
    ensures HeaderIsGood(r) && DetailsAreConsistent(r)
  {
    ReadHeaderUndoesWrite(a);
  }

  function DetailsJson(r: Record): Json { if "details" in r then r["details"] else Null }
}
