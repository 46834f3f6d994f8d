/** The command lines that can carry an external assertion. */
module CommandLine {
  import opened Json
  import opened Text
  import ShellWords

  const NPM_BOOLEAN_FLAGS: seq<string> := ["--json", "-j", "--silent", "--long", "--parseable"]
  const NPM_VALUE_FLAGS: seq<string> := ["--registry", "--tag", "--workspace", "--userconfig", "--otp"]

  datatype PackageSpec = PackageSpec(packageName: string, requestedVersion: Option<string>)

  predicate IsNameChar(c: char) {
    'A' <= c <= 'Z' || 'a' <= c <= 'z' || '0' <= c <= '9' || c == '.' || c == '_' || c == '-'
  }

  predicate IsNamePart(s: string) { s != "" && forall i :: 0 <= i < |s| ==> IsNameChar(s[i]) }

  /** `name` or `@scope/name`. */
  predicate IsPackageName(s: string) {
    var slash := IndexFrom(s, '/', 0);
    if s != "" && s[0] == '@' then
      slash < |s| && IsNamePart(s[1..slash]) && IsNamePart(s[slash + 1..])
    else IsNamePart(s)
  }

  /** Where the version starts to be named: the index of the `@`, or -1. */
  function SplitAt(s: string): int {
    if s != "" && s[0] == '@' then AfterLast(s, '@', |s|) - 1
    else if IndexFrom(s, '@', 0) < |s| then IndexFrom(s, '@', 0)
    else -1
  }

  function ParsePackageSpec(value: string): Option<PackageSpec> {
    var trimmed := Trim(value);
    if trimmed == "" || trimmed[0] == '-' then None
    else
      var splitAt := SplitAt(trimmed);
      var slash := IndexFrom(trimmed, '/', 0);
      var hasVersion := splitAt > 0 && (trimmed[0] != '@' || slash == |trimmed| || splitAt > slash);
      var name := if hasVersion then trimmed[..splitAt] else trimmed;
      var version := if hasVersion then trimmed[splitAt + 1..] else "";
      if !IsPackageName(name) then None
      else Some(PackageSpec(name, if version == "" then None else Some(version)))
  }

  /** Not empty, and without a blank at its end. */
  predicate EndsInText(s: string) { s != "" && !IsSpace(s[|s| - 1]) }

  lemma TrimIsIdentity(s: string)
    requires EndsInText(s) && !IsSpace(s[0])
    ensures Trim(s) == s
  {
  }

  lemma NamePartsHaveNoSeparator(name: string)
    requires IsPackageName(name)
    ensures name != ""
    ensures name[0] == '@' ==> forall i :: 0 < i < |name| ==> name[i] != '@'
    ensures name[0] != '@' ==> forall i :: 0 <= i < |name| ==> name[i] != '@' && name[i] != '/'
  {
    if name[0] == '@' {
      var slash := IndexFrom(name, '/', 0);
      forall i | 0 < i < |name| ensures name[i] != '@' {
        if i < slash {
          assert name[1..slash][i - 1] == name[i];
        } else if i > slash {
          assert name[slash + 1..][i - slash - 1] == name[i];
        }
      }
    }
  }

  lemma NameStartsWithText(name: string)
    requires IsPackageName(name)
    ensures !IsSpace(name[0])
  {
    if name[0] != '@' {
      assert IsNameChar(name[0]);
    }
  }

  /** Joining puts the name in front of the separator and the version behind it. */
  lemma Joined(name: string, version: string)
    requires IsPackageName(name) && EndsInText(version)
    ensures var s := name + "@" + version;
          && Trim(s) == s && s[..|name|] == name && s[|name| + 1..] == version
            && (forall i :: 0 <= i < |name| ==> s[i] == name[i]) && s[|name|] == '@'
            && (forall i :: |name| < i < |s| ==> s[i] == version[i - |name| - 1])
  {
    var s := name + "@" + version;
    NamePartsHaveNoSeparator(name);
    NameStartsWithText(name);
    assert s[0] == name[0] && s[|s| - 1] == version[|version| - 1];
    TrimIsIdentity(s);
  }

  /** A version is what a spec ends with, so it never ends in a blank. */
  lemma VersionEndsInText(value: string)
    ensures var r := ParsePackageSpec(value);
            r.Some? && r.value.requestedVersion.Some? ==> EndsInText(r.value.requestedVersion.value)
  {
  }

  lemma UnscopedRoundTrip(name: string, version: string)
    requires IsPackageName(name) && name[0] != '-' && name[0] != '@' && EndsInText(version)
    ensures ParsePackageSpec(name + "@" + version) == Some(PackageSpec(name, Some(version)))
  {
    Joined(name, version);
    NamePartsHaveNoSeparator(name);
    assert SplitAt(name + "@" + version) == |name|;
  }

  lemma ScopedRoundTrip(name: string, version: string)
    requires IsPackageName(name) && name[0] == '@' && EndsInText(version)
    ensures ParsePackageSpec(name + "@" + version) == Some(PackageSpec(name, Some(version))) <==> '@' !in version
  {
    var s := name + "@" + version;
    Joined(name, version);
    NamePartsHaveNoSeparator(name);
    var slash := IndexFrom(name, '/', 0);
    assert s[slash] == '/';
    if '@' in version {
      var k :| 0 <= k < |version| && version[k] == '@';
      assert s[|name| + 1 + k] == '@';
      assert SplitAt(s) >= |name| + 1 + k;
      assert |s[..SplitAt(s)]| > |name|;
    } else {
      assert SplitAt(s) == |name|;
    }
  }

  /**
   A package name joined to any version is split back into the two exactly when the name does not look
   like a flag, the version ends in something other than a blank, and it is not a scoped name with a
   version that itself contains `@`: the last `@` then wins and the spec is refused.
   */
  lemma PackageSpecRoundTrip(name: string, version: string)
    requires IsPackageName(name)
    ensures ParsePackageSpec(name + "@" + version) == Some(PackageSpec(name, Some(version)))
       <==> name[0] != '-' && EndsInText(version) && !(name[0] == '@' && '@' in version)
  {
    VersionEndsInText(name + "@" + version);
    if EndsInText(version) {
      Joined(name, version);
      if name[0] == '@' {
        ScopedRoundTrip(name, version);
      } else if name[0] != '-' {
        UnscopedRoundTrip(name, version);
      }
    }
  }

  predicate HasValueFlagPrefix(lower: string) {
    exists k :: 0 <= k < |NPM_VALUE_FLAGS| && StartsWith(lower, NPM_VALUE_FLAGS[k] + "=")
  }

  /** The arguments that are not flags, or nothing when a flag is unknown or lacks its value. */
  function Positionals(args: seq<string>): Option<seq<string>>
    decreases |args|
  {
    if args == [] then Some([])
    else
      var lower := Lower(args[0]);
      if lower in NPM_BOOLEAN_FLAGS then Positionals(args[1..])
      else if lower in NPM_VALUE_FLAGS then if |args| == 1 then None else Positionals(args[2..])
      else if HasValueFlagPrefix(lower) then Positionals(args[1..])
      else if StartsWith(args[0], "-") then None
      else Prepend([args[0]], Positionals(args[1..]))
  }

  /** What the arguments of `npm view` are made of. */
  datatype Argument = Flag(text: string) | FlagAndValue(flag: string, value: string) | Positional(text: string)

  predicate IsBooleanFlag(s: string) { Lower(s) in NPM_BOOLEAN_FLAGS }

  predicate IsValueFlag(s: string) { Lower(s) in NPM_VALUE_FLAGS }

  predicate ValidArgument(a: Argument) {
    match a
    case Flag(text) => IsBooleanFlag(text) || (!IsValueFlag(text) && HasValueFlagPrefix(Lower(text)))
    case FlagAndValue(flag, _) => IsValueFlag(flag)
    case Positional(text) => !StartsWith(text, "-")
  }

  predicate ValidArguments(parts: seq<Argument>) { forall i :: 0 <= i < |parts| ==> ValidArgument(parts[i]) }

  function SpellOne(a: Argument): seq<string> { if a.FlagAndValue? then [a.flag, a.value] else [a.text] }

  function Spell(parts: seq<Argument>): seq<string> {
    if parts == [] then [] else SpellOne(parts[0]) + Spell(parts[1..])
  }

  function Texts(parts: seq<Argument>): seq<string> {
    if parts == [] then [] else (if parts[0].Positional? then [parts[0].text] else []) + Texts(parts[1..])
  }

  lemma FlagKindsDiffer(s: string)
    ensures !(IsBooleanFlag(s) && IsValueFlag(s))
  {
    assert "--parseable"[2] != "--workspace"[2];
  }

  lemma PositionalIsNoFlag(s: string)
    requires !StartsWith(s, "-")
    ensures !IsBooleanFlag(s) && !IsValueFlag(s) && !HasValueFlagPrefix(Lower(s))
  {
    if s == "" {
      assert Lower(s) == "";
    } else {
      assert s[0] != '-';
      assert Lower(s)[0] != '-';
      assert forall k :: 0 <= k < |NPM_VALUE_FLAGS| ==> NPM_VALUE_FLAGS[k][0] == '-';
      assert forall k :: 0 <= k < |NPM_BOOLEAN_FLAGS| ==> NPM_BOOLEAN_FLAGS[k][0] == '-';
    }
  }

  lemma {:induction false} ReadArgument(a: Argument, rest: seq<string>)
    requires ValidArgument(a)
    ensures Positionals(SpellOne(a) + rest) == Prepend(if a.Positional? then [a.text] else [], Positionals(rest))
  {
    var args := SpellOne(a) + rest;
    assert args[|SpellOne(a)|..] == rest;
    assert Positionals(rest).Some? ==> [] + Positionals(rest).value == Positionals(rest).value;
    match a
    case Flag(text) => FlagKindsDiffer(text);
    case FlagAndValue(flag, _) => FlagKindsDiffer(flag);
    case Positional(text) => PositionalIsNoFlag(text);
  }

  lemma {:induction false} ReadArguments(parts: seq<Argument>)
    requires ValidArguments(parts)
    ensures Positionals(Spell(parts)) == Some(Texts(parts))
  {
    if parts != [] {
      assert ValidArgument(parts[0]);
      ReadArgument(parts[0], Spell(parts[1..]));
      ReadArguments(parts[1..]);
    }
  }

  lemma {:induction false} SplitArguments(args: seq<string>) returns (parts: seq<Argument>)
    requires Positionals(args).Some?
    ensures ValidArguments(parts) && Spell(parts) == args
    decreases |args|
  {
    if args == [] {
      parts := [];
    } else {
      var first := if IsBooleanFlag(args[0]) then Flag(args[0])
                   else if IsValueFlag(args[0]) then FlagAndValue(args[0], args[1])
                   else if HasValueFlagPrefix(Lower(args[0])) then Flag(args[0]) else Positional(args[0]);
      var later := SplitArguments(args[|SpellOne(first)|..]);
      parts := [first] + later;
      assert parts[1..] == later && args == SpellOne(first) + args[|SpellOne(first)|..];
    }
  }

  /**
   The arguments are accepted exactly when they are known flags, value flags each followed by one
   value, and positionals, in any order; the positionals are then returned in order.
   */
  lemma PositionalsAreGrammar(args: seq<string>)
    ensures Positionals(args).Some? <==> exists parts :: ValidArguments(parts) && Spell(parts) == args
    ensures forall parts :: ValidArguments(parts) && Spell(parts) == args ==> Positionals(args) == Some(Texts(parts))
  {
    if Positionals(args).Some? {
      var parts := SplitArguments(args);
    }
    forall parts | ValidArguments(parts) && Spell(parts) == args ensures Positionals(args) == Some(Texts(parts)) {
      ReadArguments(parts);
    }
  }

  datatype NpmField = FieldPublish | FieldVersion | FieldLatest

  datatype NpmView = NpmView(packageName: string, requestedVersion: Option<string>, field: NpmField)

  function ParseView(args: seq<string>): Option<NpmView> {
    match Positionals(args)
    case None => None
    case Some(positionals) => ViewOf(positionals)
  }

  /** A package and a field, and nothing else. */
  function ViewOf(positionals: seq<string>): Option<NpmView> {
    if |positionals| != 2 then None
    else
      var field := Lower(positionals[1]);
      match ParsePackageSpec(positionals[0])
      case None => None
      case Some(spec) =>
        if field == "version" then Some(NpmView(spec.packageName, spec.requestedVersion, FieldVersion))
        else if field == "dist-tags.latest" then Some(NpmView(spec.packageName, spec.requestedVersion, FieldLatest))
        else None
  }

  function Prepend(front: seq<string>, r: Option<seq<string>>): Option<seq<string>> {
    match r
    case None => None
    case Some(rest) => Some(front + rest)
  }

  lemma PrependNothing(r: Option<seq<string>>)
    ensures Prepend([], r) == r
  {
    assert r.Some? ==> [] + r.value == r.value;
  }

  lemma PrependStep(front: seq<string>, arg: string, later: Option<seq<string>>)
    ensures Prepend(front, Prepend([arg], later)) == Prepend(front + [arg], later)
  {
    assert later.Some? ==> front + ([arg] + later.value) == front + [arg] + later.value;
  }

  method NpmViewInvocation(args: seq<string>) returns (r: Option<NpmView>)
    ensures r == ParseView(args)
  {
    var positionals: seq<string> := [];
    var index := 0;
    assert args[0..] == args;
    PrependNothing(Positionals(args));
    while index < |args|
      invariant index <= |args|
      invariant Positionals(args) == Prepend(positionals, Positionals(args[index..]))
    {
      ghost var rest := args[index..];
      var arg := args[index];
      var lower := Lower(arg);
      assert rest[1..] == args[index + 1..];
      if lower in NPM_BOOLEAN_FLAGS {
        index := index + 1;
        continue;
      }
      if lower in NPM_VALUE_FLAGS {
        index := index + 1;
        if index >= |args| {
          return None;
        }
        index := index + 1;
        assert rest[2..] == args[index..];
        continue;
      }
      if HasValueFlagPrefix(lower) {
        index := index + 1;
        continue;
      }
      if StartsWith(arg, "-") {
        return None;
      }
      PrependStep(positionals, arg, Positionals(rest[1..]));
      positionals := positionals + [arg];
      index := index + 1;
    }
    assert positionals + [] == positionals;
    assert Positionals(args) == Some(positionals) && ParseView(args) == ViewOf(positionals);
    if |positionals| != 2 {
      return None;
    }
    var spec := ParsePackageSpec(positionals[0]);
    var field := Lower(positionals[1]);
    if spec.None? || (field != "version" && field != "dist-tags.latest") {
      return None;
    }
    r := Some(NpmView(spec.value.packageName, spec.value.requestedVersion,
                      if field == "version" then FieldVersion else FieldLatest));
  }

  function IndexOf(argv: seq<string>, word: string): (i: nat)
    ensures i <= |argv|
    ensures i < |argv| ==> argv[i] == word
  {
    if argv == [] || argv[0] == word then 0 else 1 + IndexOf(argv[1..], word)
  }

  function FirstWithPrefix(argv: seq<string>, prefix: string): Option<string> {
    if argv == [] then None
    else if StartsWith(argv[0], prefix) then Some(argv[0][|prefix|..])
    else FirstWithPrefix(argv[1..], prefix)
  }

  function At(argv: seq<string>, i: nat): Option<string> { if i < |argv| then Some(argv[i]) else None }

  function FlagValue(argv: seq<string>, flag: string): Option<string> {
    var exact := IndexOf(argv, flag);
    if exact < |argv| then At(argv, exact + 1) else FirstWithPrefix(argv, flag + "=")
  }

  /** An argument that is not a flag. */
  function Operand(argv: seq<string>, i: nat): Option<string> {
    if i < |argv| && !StartsWith(argv[i], "-") then Some(argv[i]) else None
  }

  /** The invocations that can carry an assertion. */
  datatype Invocation =
    | GitPush
    | Publish
    | View(view: NpmView)
    | PrCreate(repo: Option<string>)
    | PrMerge(repo: Option<string>, pr: Option<string>)
    | PrView(repo: Option<string>, pr: Option<string>)
    | ReleaseCreate(repo: Option<string>, tag: Option<string>, draft: bool)
    | ReleaseView(repo: Option<string>, tag: Option<string>)
    | Unrecognized

  predicate AnyDryRun(argv: seq<string>) {
    exists i :: 2 <= i < |argv| && (argv[i] == "--dry-run" || StartsWith(argv[i], "--dry-run="))
  }

  function LowerAll(words: seq<string>): (r: seq<string>)
    ensures |r| == |words|
  {
    seq(|words|, i requires 0 <= i < |words| => Lower(words[i]))
  }

  /** The branch that both the deriver and the matcher take for a tool name and its command. */
  function Classify(name: string, command: Option<string>): Invocation {
    if Lower(name) == "git_push" then GitPush
    else if Lower(name) != "exec_command" || command.None? then Unrecognized
    else
      match ShellWords.Words(command.value)
      case None => Unrecognized
      case Some(raw) => if raw == [] then Unrecognized else ClassifyWords(raw)
  }

  function ClassifyWords(raw: seq<string>): Invocation
    requires raw != []
  {
    var argv := LowerAll(raw);
    var executable := argv[0][AfterLast(argv[0], '/', |argv[0]|)..];
    var first, second := At(argv, 1), At(argv, 2);
    if executable in ["npm", "pnpm", "yarn", "bun"] && first == Some("publish") then
      if AnyDryRun(argv) then Unrecognized else Publish
    else if executable == "npm" && first == Some("view") then
      match ParseView(raw[2..])
      case None => Unrecognized
      case Some(view) => View(view)
    else if executable != "gh" then Unrecognized
    else
      var repo := FlagValue(raw, "--repo");
      if first == Some("pr") && second == Some("create") then
        if "--dry-run" in argv[3..] then Unrecognized else PrCreate(repo)
      else if first == Some("pr") && second == Some("merge") then PrMerge(repo, Operand(raw, 3))
      else if first == Some("pr") && second == Some("view") then PrView(repo, Operand(raw, 3))
      else if first == Some("release") && second == Some("create") then
        ReleaseCreate(repo, Operand(raw, 3), "--draft" in argv[3..])
      else if first == Some("release") && second == Some("view") then ReleaseView(repo, Operand(raw, 3))
      else Unrecognized
  }
}
