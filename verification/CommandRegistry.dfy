/** The table of built-in slash commands, its registration, and the parser and completer over it. */
module CommandRegistry {
  import opened Json
  import opened Text
  import opened Sequences

  datatype Definition = Definition(name: string, aliases: seq<string>, declaresRisk: bool)
  datatype Metadata = Metadata(id: string, subcommands: seq<string>)
  datatype Command = Command(name: string, aliases: seq<string>, id: string, subcommands: seq<string>)

  // ----- Names ----------------------------------------------------------------------------------

  predicate IsAlphanumeric(c: char) { 'a' <= c <= 'z' || 'A' <= c <= 'Z' || IsDigit(c) }

  /** Alphanumeric parts joined by single hyphens. */
  predicate IsWord(s: string) {
    && s != "" && s[0] != '-' && s[|s| - 1] != '-'
    && (forall i :: 0 <= i < |s| ==> IsAlphanumeric(s[i]) || s[i] == '-')
    && (forall i :: 0 <= i < |s| - 1 ==> !(s[i] == '-' && s[i + 1] == '-'))
  }

  /** A word in lower case. */
  predicate IsCommandName(s: string) { IsWord(s) && forall i :: 0 <= i < |s| ==> !('A' <= s[i] <= 'Z') }

  lemma CommandNameIsLower(s: string)
    requires IsCommandName(s)
    ensures Lower(s) == s
  {
  }

  function Names(c: Command): seq<string> { [c.name] + c.aliases }

  /** The command answers to the name, in any letter case. */
  predicate Owns(c: Command, name: string) {
    exists i :: 0 <= i < |Names(c)| && Lower(Names(c)[i]) == Lower(name)
  }

  function FindCommand(cs: seq<Command>, name: string): Option<Command> {
    if cs == [] then None else if Owns(cs[0], name) then Some(cs[0]) else FindCommand(cs[1..], name)
  }

  // ----- Registration ---------------------------------------------------------------------------

  type Table = map<string, Metadata>

  function Described(table: Table, d: Definition): Command
    requires d.name in table
  {
    Command(d.name, d.aliases, table[d.name].id, table[d.name].subcommands)
  }

  /** Every name of the first `n` commands, in order. */
  function NamesUpTo(cs: seq<Command>, n: nat): seq<string>
    requires n <= |cs|
  {
    if n == 0 then [] else NamesUpTo(cs, n - 1) + Names(cs[n - 1])
  }

  predicate GoodDefinition(d: Definition) {
    && IsCommandName(d.name) && d.declaresRisk
    && forall i :: 0 <= i < |d.aliases| ==> IsCommandName(d.aliases[i])
  }

  /** Definitions and table name the same commands. */
  ghost predicate Matches(table: Table, defs: seq<Definition>) {
    && (forall i :: 0 <= i < |defs| ==> defs[i].name in table)
    && (forall name :: name in table ==> exists i :: 0 <= i < |defs| && defs[i].name == name)
  }

  function DescribedAll(table: Table, defs: seq<Definition>): (cs: seq<Command>)
    requires forall i :: 0 <= i < |defs| ==> defs[i].name in table
    ensures |cs| == |defs|
    ensures forall i :: 0 <= i < |cs| ==> cs[i] == Described(table, defs[i])
  {
    seq(|defs|, i requires 0 <= i < |defs| => Described(table, defs[i]))
  }

  function Ids(cs: seq<Command>): (r: seq<string>)
    ensures |r| == |cs| && forall i :: 0 <= i < |r| ==> r[i] == cs[i].id
  {
    seq(|cs|, i requires 0 <= i < |cs| => cs[i].id)
  }

  /** What a registration accepts. */
  ghost predicate Acceptable(table: Table, defs: seq<Definition>) {
    && Matches(table, defs) && (forall i :: 0 <= i < |defs| ==> GoodDefinition(defs[i]))
    && var cs := DescribedAll(table, defs);
       NoDuplicates(Ids(cs)) && NoDuplicates(NamesUpTo(cs, |cs|))
  }

  /** A registered table: good names, each with one owner. */
  ghost predicate Registered(cs: seq<Command>) {
    && (forall i, k :: 0 <= i < |cs| && 0 <= k < |Names(cs[i])| ==> IsCommandName(Names(cs[i])[k]))
    && NoDuplicates(NamesUpTo(cs, |cs|))
  }

  lemma {:induction false} NamesGrow(cs: seq<Command>, i: nat, n: nat)
    requires i <= n <= |cs|
    ensures NamesUpTo(cs, i) <= NamesUpTo(cs, n)
  {
    if i < n {
      NamesGrow(cs, i, n - 1);
    }
  }

  lemma {:induction false} NamePosition(cs: seq<Command>, i: nat, k: nat) returns (p: nat)
    requires i < |cs| && k < |Names(cs[i])|
    ensures p < |NamesUpTo(cs, |cs|)| && NamesUpTo(cs, |cs|)[p] == Names(cs[i])[k]
    ensures |NamesUpTo(cs, i)| <= p < |NamesUpTo(cs, i + 1)|
  {
    p := |NamesUpTo(cs, i)| + k;
    assert NamesUpTo(cs, i + 1)[p] == Names(cs[i])[k];
    NamesGrow(cs, i + 1, |cs|);
  }

  /** Whatever the letter case, no two registered commands answer to the same name. */
  lemma OneOwner(cs: seq<Command>, name: string, i: nat, j: nat)
    requires Registered(cs) && i < |cs| && j < |cs| && Owns(cs[i], name) && Owns(cs[j], name)
    ensures i == j
  {
    var k :| 0 <= k < |Names(cs[i])| && Lower(Names(cs[i])[k]) == Lower(name);
    var l :| 0 <= l < |Names(cs[j])| && Lower(Names(cs[j])[l]) == Lower(name);
    CommandNameIsLower(Names(cs[i])[k]);
    CommandNameIsLower(Names(cs[j])[l]);
    if i < j {
      DistinctCommandsDistinctNames(cs, i, k, j, l);
    } else if j < i {
      DistinctCommandsDistinctNames(cs, j, l, i, k);
    }
  }

  lemma {:induction false} DistinctCommandsDistinctNames(cs: seq<Command>, i: nat, k: nat, j: nat, l: nat)
    requires NoDuplicates(NamesUpTo(cs, |cs|))
    requires i < j < |cs| && k < |Names(cs[i])| && l < |Names(cs[j])|
    ensures Names(cs[i])[k] != Names(cs[j])[l]
  {
    var p := NamePosition(cs, i, k);
    var q := NamePosition(cs, j, l);
    NamesGrow(cs, i + 1, j);
  }

  lemma {:induction false} FindFindsFirst(cs: seq<Command>, name: string)
    ensures FindCommand(cs, name).Some? ==>
              exists i :: 0 <= i < |cs| && cs[i] == FindCommand(cs, name).value && Owns(cs[i], name)
    ensures FindCommand(cs, name).None? ==> forall i :: 0 <= i < |cs| ==> !Owns(cs[i], name)
  {
    if cs != [] && !Owns(cs[0], name) {
      FindFindsFirst(cs[1..], name);
      if FindCommand(cs, name).Some? {
        var i :| 0 <= i < |cs[1..]| && cs[1..][i] == FindCommand(cs, name).value && Owns(cs[1..][i], name);
        assert cs[i + 1] == cs[1..][i];
      }
      forall i | 0 <= i < |cs| && FindCommand(cs, name).None? ensures !Owns(cs[i], name) {
        assert i > 0 ==> cs[i] == cs[1..][i - 1];
      }
    }
  }

  /** A lookup finds the owner of the name, and finds nothing exactly when nobody owns it. */
  lemma FindIsOwner(cs: seq<Command>, name: string, i: nat)
    requires Registered(cs) && i < |cs|
    ensures FindCommand(cs, name) == Some(cs[i]) <== Owns(cs[i], name)
    ensures FindCommand(cs, name).None? ==> !Owns(cs[i], name)
  {
    FindFindsFirst(cs, name);
    if Owns(cs[i], name) {
      var j :| 0 <= j < |cs| && cs[j] == FindCommand(cs, name).value && Owns(cs[j], name);
      OneOwner(cs, name, i, j);
    }
  }

  /** How often a name is among those of a command. */
  function NameWeight(name: string): Command -> nat { (c: Command) => multiset(Names(c))[name] }

  lemma {:induction false} NamesAreWeighed(cs: seq<Command>, n: nat, name: string)
    requires n <= |cs|
    ensures multiset(NamesUpTo(cs, n))[name] == Weigh(cs[..n], NameWeight(name))
  {
    if n > 0 {
      NamesAreWeighed(cs, n - 1, name);
      assert cs[..n][..n - 1] == cs[..n - 1] && cs[..n][n - 1] == cs[n - 1];
    }
  }

  /** A table in any other order is registered too. */
  lemma {:induction false} ReorderedIsRegistered(cs: seq<Command>, other: seq<Command>)
    requires Registered(cs) && multiset(cs) == multiset(other)
    ensures Registered(other)
  {
    assert cs[..|cs|] == cs && other[..|other|] == other;
    forall name ensures multiset(NamesUpTo(cs, |cs|))[name] == multiset(NamesUpTo(other, |other|))[name] {
      NamesAreWeighed(cs, |cs|, name);
      NamesAreWeighed(other, |other|, name);
      WeighPermuted(cs, other, NameWeight(name));
    }
    NoDuplicatesAsMultiset(NamesUpTo(cs, |cs|), NamesUpTo(other, |other|));
    forall i, k | 0 <= i < |other| && 0 <= k < |Names(other[i])| ensures IsCommandName(Names(other[i])[k]) {
      assert other[i] in multiset(cs);
      var j :| 0 <= j < |cs| && cs[j] == other[i];
    }
  }

  /** Lookups do not depend on the order of the table. */
  lemma {:induction false} FindIgnoresOrder(cs: seq<Command>, other: seq<Command>, name: string)
    requires Registered(cs) && multiset(cs) == multiset(other)
    ensures FindCommand(cs, name) == FindCommand(other, name)
  {
    ReorderedIsRegistered(cs, other);
    FindFindsFirst(cs, name);
    FindFindsFirst(other, name);
    if FindCommand(cs, name).Some? {
      var i :| 0 <= i < |cs| && cs[i] == FindCommand(cs, name).value && Owns(cs[i], name);
      assert cs[i] in multiset(other);
      var j :| 0 <= j < |other| && other[j] == cs[i];
      FindIsOwner(other, name, j);
    } else {
      forall j | 0 <= j < |other| ensures !Owns(other[j], name) {
        assert other[j] in multiset(cs);
      }
    }
  }

  // ----- Parsing --------------------------------------------------------------------------------

  datatype ParsedInput =
    | NotCommand(args: string)
    | ParsedCommand(name: string, rawArgs: string, command: Option<Command>)

  function FirstBlank(s: string, i: nat): (k: nat)
    requires i <= |s|
    ensures i <= k <= |s|
    ensures forall j :: i <= j < k ==> s[j] != ' ' && s[j] != '\t'
    ensures k < |s| ==> s[k] == ' ' || s[k] == '\t'
    decreases |s| - i
  {
    if i == |s| || s[i] == ' ' || s[i] == '\t' then i else FirstBlank(s, i + 1)
  }

  function FirstSpace(s: string, i: nat): (k: nat)
    requires i <= |s|
    ensures i <= k <= |s|
    ensures forall j :: i <= j < k ==> !IsSpace(s[j])
    ensures k < |s| ==> IsSpace(s[k])
    decreases |s| - i
  {
    if i == |s| || IsSpace(s[i]) then i else FirstSpace(s, i + 1)
  }

  function DropBlanks(s: string): string {
    if s != "" && (s[0] == ' ' || s[0] == '\t') then DropBlanks(s[1..]) else s
  }

  /** The first token, behind its slash, has a slash or a dot. */
  predicate IsPathLike(line: string)
    requires line != "" && line[0] == '/'
  {
    exists i :: 1 <= i < FirstSpace(line, 0) && (line[i] == '/' || line[i] == '.')
  }

  /** The command word of a line and, behind at least one blank, the rest. */
  function SplitCommand(line: string): Option<(string, Option<string>)>
    requires line != "" && line[0] == '/'
  {
    var end := FirstBlank(line, 1);
    if !IsWord(line[1..end]) then None
    else Some((line[1..end], if end == |line| then None else Some(DropBlanks(line[end..]))))
  }

  function ParseInput(cs: seq<Command>, line: string): ParsedInput {
    if Trim(line) == "" then NotCommand("")
    else if line[0] == '/' && !IsPathLike(line) then
      match SplitCommand(line)
      case None => NotCommand(line)
      case Some((word, rest)) =>
        var name := Lower(word);
        ParsedCommand(name, if rest.Some? then rest.value else "", FindCommand(cs, name))
    else NotCommand(Trim(line))
  }

  // ----- Completion -----------------------------------------------------------------------------

  /** The candidates that start with what was typed, each made into a line. */
  function Completions(candidates: seq<string>, typed: string, front: string): seq<string> {
    if candidates == [] then []
    else
      (if StartsWith(candidates[0], typed) then [front + candidates[0]] else [])
      + Completions(candidates[1..], typed, front)
  }

  /** Completions of a line; `visible` are the names that may be offered. */
  function LineSuggestions(cs: seq<Command>, visible: seq<string>, line: string): seq<string> {
    if line == "" || line[0] != '/' || IsPathLike(line) then []
    else
      match SplitCommand(line)
      case None => []
      case Some((word, rest)) =>
        if rest.Some? && FirstBlank(rest.value, 0) < |rest.value| then []
        else
          match FindCommand(cs, Lower(word))
          case None => Completions(visible, Lower(word), "/")
          case Some(command) =>
            if rest.None? then [] else Completions(command.subcommands, Lower(rest.value), "/" + command.name + " ")
  }

  lemma {:induction false} CompletionShape(candidates: seq<string>, typed: string, front: string, s: string)
    requires s in Completions(candidates, typed, front)
    ensures exists c :: c in candidates && StartsWith(c, typed) && s == front + c
  {
    if !(StartsWith(candidates[0], typed) && s == front + candidates[0]) {
      CompletionShape(candidates[1..], typed, front, s);
      var c :| c in candidates[1..] && StartsWith(c, typed) && s == front + c;
      assert c in candidates;
    }
  }

  lemma WordHasNoSpace(w: string)
    requires IsCommandName(w)
    ensures forall i :: 0 <= i < |w| ==> !IsSpace(w[i]) && w[i] != '/' && w[i] != '.' && w[i] != ' ' && w[i] != '\t'
  {
    forall i | 0 <= i < |w| ensures !IsSpace(w[i]) && w[i] != '/' && w[i] != '.' {
      assert IsAlphanumeric(w[i]) || w[i] == '-';
    }
  }

  lemma TrimKeepsSlash(line: string)
    requires line != "" && line[0] == '/'
    ensures Trim(line) != ""
  {
    TrimRightKeepsSlash(line);
  }

  lemma {:induction false} TrimRightKeepsSlash(line: string)
    requires line != "" && line[0] == '/'
    ensures TrimRight(line) != ""
  {
    if IsSpace(line[|line| - 1]) {
      TrimRightKeepsSlash(line[..|line| - 1]);
    }
  }

  lemma NameIsSplit(name: string, tail: string)
    requires IsCommandName(name) && (tail == "" || tail[0] == ' ')
    ensures var line := "/" + name + tail;
          && !IsPathLike(line) && SplitCommand(line).Some? && SplitCommand(line).value.0 == name
  {
    var line := "/" + name + tail;
    WordHasNoSpace(name);
    assert forall k :: 1 <= k <= |name| ==> line[k] == name[k - 1];
    assert tail != "" ==> line[|name| + 1] == ' ';
    assert FirstBlank(line, 1) == |name| + 1;
    assert FirstSpace(line, 0) <= |name| + 1;
    assert line[1..|name| + 1] == name;
  }

  /** A line made of a command name, alone or followed by a blank and anything, parses to its owner. */
  lemma NameParses(cs: seq<Command>, i: nat, tail: string)
    requires Registered(cs) && i < |cs| && (tail == "" || tail[0] == ' ')
    ensures var r := ParseInput(cs, "/" + cs[i].name + tail);
            r.ParsedCommand? && r.name == cs[i].name && r.command == Some(cs[i])
  {
    var name := cs[i].name;
    assert Names(cs[i])[0] == name;
    NameIsSplit(name, tail);
    CommandNameIsLower(name);
    TrimKeepsSlash("/" + name + tail);
    assert Owns(cs[i], name);
    FindIsOwner(cs, name, i);
  }

  lemma NameCompletionParses(cs: seq<Command>, visible: seq<string>, typed: string, s: string)
    requires Registered(cs)
    requires forall v :: v in visible ==> exists i :: 0 <= i < |cs| && cs[i].name == v
    requires s in Completions(visible, typed, "/")
    ensures var r := ParseInput(cs, s);
          && r.ParsedCommand? && r.command.Some? && r.command.value in cs && r.name == r.command.value.name
            && StartsWith(r.name, typed) && r.name in visible
  {
    CompletionShape(visible, typed, "/", s);
    var c :| c in visible && StartsWith(c, typed) && s == "/" + c;
    var i :| 0 <= i < |cs| && cs[i].name == c;
    NameParses(cs, i, "");
    assert "/" + c + "" == s;
  }

  lemma JoinAssociates(name: string, c: string)
    ensures ("/" + name + " ") + c == "/" + name + (" " + c)
  {
  }

  lemma SubcommandCompletionParses(cs: seq<Command>, command: Command, typed: string, s: string)
    requires Registered(cs) && command in cs
    requires s in Completions(command.subcommands, typed, "/" + command.name + " ")
    ensures var r := ParseInput(cs, s); r.ParsedCommand? && r.command == Some(command) && r.name == command.name
  {
    var front := "/" + command.name + " ";
    CompletionShape(command.subcommands, typed, front, s);
    var c :| c in command.subcommands && StartsWith(c, typed) && s == front + c;
    var i :| 0 <= i < |cs| && cs[i] == command;
    NameParses(cs, i, " " + c);
    JoinAssociates(command.name, c);
  }

  /**
   Every completion offered parses back to a registered command: a name completion to the command of
   that name, a subcommand completion to the command that the typed line already named.
   */
  lemma CompletionsParseBack(cs: seq<Command>, visible: seq<string>, line: string, s: string)
    requires Registered(cs)
    requires forall v :: v in visible ==> exists i :: 0 <= i < |cs| && cs[i].name == v
    requires s in LineSuggestions(cs, visible, line)
    ensures var typed, r := ParseInput(cs, line), ParseInput(cs, s);
          && typed.ParsedCommand? && r.ParsedCommand? && r.command.Some? && r.command.value in cs
            && r.name == r.command.value.name
            && (typed.command.Some? ==> r.command == typed.command)
            && (typed.command.None? ==> StartsWith(r.name, typed.name) && r.name in visible)
  {
    TrimKeepsSlash(line);
    var (word, rest) := SplitCommand(line).value;
    FindFindsFirst(cs, Lower(word));
    match FindCommand(cs, Lower(word))
    case None => NameCompletionParses(cs, visible, Lower(word), s);
    case Some(command) => SubcommandCompletionParses(cs, command, Lower(rest.value), s);
  }

  /** What the line editor offers: completions of the line, and failing those the names that start like it. */
  function Completer(cs: seq<Command>, visible: seq<string>, line: string): seq<string> {
    var trimmed := Trim(line);
    if trimmed == "" || trimmed[0] != '/' || IsPathLike(trimmed) then []
    else if LineSuggestions(cs, visible, line) != [] then LineSuggestions(cs, visible, line)
    else if FirstSpace(trimmed, 1) < |trimmed| then []
    else Completions(visible, Lower(trimmed[1..]), "/")
  }

  /** Whatever is typed, accepting an offer gives a line that parses to a registered command by its own name. */
  lemma {:induction false} CompleterParsesBack(cs: seq<Command>, visible: seq<string>, line: string, s: string)
    requires Registered(cs)
    requires forall v :: v in visible ==> exists i :: 0 <= i < |cs| && cs[i].name == v
    requires s in Completer(cs, visible, line)
    ensures var r := ParseInput(cs, s);
          && r.ParsedCommand? && r.command.Some? && r.command.value in cs && r.name == r.command.value.name
  {
    if LineSuggestions(cs, visible, line) != [] {
      CompletionsParseBack(cs, visible, line, s);
    } else {
      NameCompletionParses(cs, visible, Lower(Trim(line)[1..]), s);
    }
  }

  // ----- The registry ---------------------------------------------------------------------------

  /** A name taken twice among the first commands spoils the whole table. */
  lemma CollisionSpoils(cs: seq<Command>, i: nat, k: nat)
    requires i < |cs| && k < |Names(cs[i])|
    requires Names(cs[i])[k] in NamesUpTo(cs, i) + Names(cs[i])[..k]
    ensures !NoDuplicates(NamesUpTo(cs, |cs|))
  {
    var before := NamesUpTo(cs, i) + Names(cs[i])[..k];
    var all := NamesUpTo(cs, |cs|);
    NamesGrow(cs, i + 1, |cs|);
    var p :| 0 <= p < |before| && before[p] == Names(cs[i])[k];
    var q := |NamesUpTo(cs, i)| + k;
    assert NamesUpTo(cs, i + 1)[p] == before[p] && NamesUpTo(cs, i + 1)[q] == Names(cs[i])[k];
    assert all[p] == all[q] && p < q;
  }

  lemma {:induction false} NamesHaveOwners(cs: seq<Command>, n: nat, name: string)
    requires n <= |cs|
    ensures name in NamesUpTo(cs, n) <==> exists i :: 0 <= i < n && name in Names(cs[i])
  {
    if n > 0 {
      NamesHaveOwners(cs, n - 1, name);
    }
  }

  /** The reserved names are those that a lookup finds. */
  lemma ReservedIsFound(cs: seq<Command>, name: string)
    requires Registered(cs)
    ensures Lower(name) in NamesUpTo(cs, |cs|) <==> FindCommand(cs, name).Some?
  {
    NamesHaveOwners(cs, |cs|, Lower(name));
    FindFindsFirst(cs, name);
    if Lower(name) in NamesUpTo(cs, |cs|) {
      var i :| 0 <= i < |cs| && Lower(name) in Names(cs[i]);
      var k :| 0 <= k < |Names(cs[i])| && Names(cs[i])[k] == Lower(name);
      CommandNameIsLower(Names(cs[i])[k]);
      assert Owns(cs[i], name);
    }
    if FindCommand(cs, name).Some? {
      var i :| 0 <= i < |cs| && cs[i] == FindCommand(cs, name).value && Owns(cs[i], name);
      var k :| 0 <= k < |Names(cs[i])| && Lower(Names(cs[i])[k]) == Lower(name);
      CommandNameIsLower(Names(cs[i])[k]);
      assert Lower(name) in Names(cs[i]);
    }
  }

  lemma AllReservedAreFound(cs: seq<Command>)
    requires Registered(cs)
    ensures forall name: string :: Lower(name) in Elements(NamesUpTo(cs, |cs|)) <==> FindCommand(cs, name).Some?
  {
    forall name: string ensures Lower(name) in Elements(NamesUpTo(cs, |cs|)) <==> FindCommand(cs, name).Some? {
      ReservedIsFound(cs, name);
    }
  }

  lemma GoodNames(table: Table, defs: seq<Definition>)
    requires Matches(table, defs) && forall i :: 0 <= i < |defs| ==> GoodDefinition(defs[i])
    ensures var cs := DescribedAll(table, defs);
            forall i, k :: 0 <= i < |cs| && 0 <= k < |Names(cs[i])| ==> IsCommandName(Names(cs[i])[k])
  {
  }

  /** The table's own names are names of its commands. */
  lemma TableNamesAreTaken(table: Table, defs: seq<Definition>)
    requires Matches(table, defs)
    ensures var cs := DescribedAll(table, defs); table.Keys <= Elements(NamesUpTo(cs, |cs|))
  {
    var cs := DescribedAll(table, defs);
    forall name | name in table ensures name in NamesUpTo(cs, |cs|) {
      var i :| 0 <= i < |defs| && defs[i].name == name;
      assert Names(cs[i])[0] == name;
      NamesHaveOwners(cs, |cs|, name);
    }
  }

  class Registry {
    const table: Table
    var reserved: set<string>

    constructor (table: Table)
      ensures this.table == table && reserved == table.Keys
    {
      this.table, reserved := table, table.Keys;
    }

    predicate IsBuiltinCommandName(name: string)
      reads this
    {
      Lower(name) in reserved
    }

    /**
     Registers the definitions, or reports an error and leaves the reserved names as they were. It
     succeeds exactly when the definitions are acceptable; then the names of the registered commands
     are exactly the reserved ones.
     */
    method RegisterBuiltinCommands(defs: seq<Definition>) returns (r: Option<seq<Command>>)
      requires forall name :: name in table ==> table[name].id != ""
      modifies this
      ensures r.Some? <==> Acceptable(table, defs)
      ensures r.None? ==> reserved == old(reserved)
      ensures r.Some? ==> r.value == DescribedAll(table, defs) && Registered(r.value)
      ensures r.Some? ==> forall name: string :: IsBuiltinCommandName(name) <==> FindCommand(r.value, name).Some?
    {
      var definitionNames := set i | 0 <= i < |defs| :: defs[i].name;
      if definitionNames != table.Keys {
        return None;
      }
      if !(forall i :: 0 <= i < |defs| ==> GoodDefinition(defs[i])) {
        return None;
      }
      assert Matches(table, defs);
      GoodNames(table, defs);
      TableNamesAreTaken(table, defs);
      var cs := DescribedAll(table, defs);
      var ok, taken := ClaimNames(cs);
      if !ok {
        return None;
      }
      reserved := table.Keys + taken;
      AllReservedAreFound(cs);
      assert reserved == Elements(NamesUpTo(cs, |cs|));
      r := Some(cs);
    }

    /** Gives every id and every name its owner, or finds one that is claimed twice. */
    method ClaimNames(cs: seq<Command>) returns (ok: bool, taken: set<string>)
      requires forall i, k :: 0 <= i < |cs| && 0 <= k < |Names(cs[i])| ==> IsCommandName(Names(cs[i])[k])
      requires forall i :: 0 <= i < |cs| ==> cs[i].id != ""
      ensures ok <==> NoDuplicates(Ids(cs)) && NoDuplicates(NamesUpTo(cs, |cs|))
      ensures ok ==> taken == Elements(NamesUpTo(cs, |cs|))
    {
      var ids: set<string> := {};
      var names: map<string, string> := map[];
      for i := 0 to |cs|
        invariant ids == Elements(Ids(cs)[..i]) && NoDuplicates(Ids(cs)[..i])
        invariant NoDuplicates(NamesUpTo(cs, i)) && names.Keys == Elements(NamesUpTo(cs, i))
        invariant forall n :: n in names ==> names[n] != ""
      {
        if cs[i].id in ids {
          var k :| 0 <= k < i && Ids(cs)[k] == cs[i].id;
          return false, {};
        }
        assert Ids(cs)[..i + 1] == Ids(cs)[..i] + [cs[i].id];
        OneMoreElement(Ids(cs)[..i], cs[i].id);
        ids := ids + {cs[i].id};
        names, ok := ClaimNamesOf(cs, i, names);
        if !ok {
          return false, {};
        }
      }
      assert Ids(cs)[..|cs|] == Ids(cs);
      ok, taken := true, names.Keys;
    }

    /** Claims the names of one command. */
    method ClaimNamesOf(cs: seq<Command>, i: nat, names: map<string, string>) returns (r: map<string, string>, ok: bool)
      requires i < |cs| && cs[i].id != ""
      requires forall k :: 0 <= k < |Names(cs[i])| ==> IsCommandName(Names(cs[i])[k])
      requires NoDuplicates(NamesUpTo(cs, i)) && names.Keys == Elements(NamesUpTo(cs, i))
      requires forall n :: n in names ==> names[n] != ""
      ensures !ok ==> !NoDuplicates(NamesUpTo(cs, |cs|))
      ensures ok ==> NoDuplicates(NamesUpTo(cs, i + 1)) && r.Keys == Elements(NamesUpTo(cs, i + 1))
      ensures ok ==> forall n :: n in r ==> r[n] != ""
    {
      r, ok := names, true;
      var values := Names(cs[i]);
      assert NamesUpTo(cs, i) + values[..0] == NamesUpTo(cs, i);
      for k := 0 to |values|
        invariant NoDuplicates(NamesUpTo(cs, i) + values[..k])
        invariant r.Keys == Elements(NamesUpTo(cs, i) + values[..k])
        invariant forall n :: n in r ==> r[n] != ""
      {
        CommandNameIsLower(values[k]);
        var normalized := Lower(values[k]);
        if normalized in r && r[normalized] != "" {
          CollisionSpoils(cs, i, k);
          return r, false;
        }
        OneMoreElement(NamesUpTo(cs, i) + values[..k], values[k]);
        assert NamesUpTo(cs, i) + values[..k + 1] == NamesUpTo(cs, i) + values[..k] + [values[k]];
        r := r[normalized := cs[i].id];
      }
      assert values[..|values|] == values;
    }
  }
}
