/**
 Verifying a bundle of raw scenario evidence against the scenarios of its run manifest, and listing
 its files in an order that does not depend on how the directory was read.
 */
module EvidenceBundle {
  import opened Json
  import opened Sequences

  type Scenario(==, !new)
  type Digest(==, !new)

  datatype File = File(path: string, sha256: string)

  /** A directory entry; `evidence` holds the files it contributes, or nothing when one of its checks fails. */
  datatype RawEntry = RawEntry(name: string, isDirectory: bool, scenario: Scenario, evidence: Option<seq<File>>)

  ghost predicate Injective(digest: Scenario -> Digest) {
    forall a, b :: digest(a) == digest(b) ==> a == b
  }

  // ----- Sorting --------------------------------------------------------------------------------

  /** How two paths compare; distinct paths may compare as equal. */
  ghost predicate IsOrder(le: (string, string) -> bool) {
    && (forall a, b :: le(a, b) || le(b, a))
    && (forall a, b, c :: le(a, b) && le(b, c) ==> le(a, c))
  }

  function Insert(le: (string, string) -> bool, f: File, fs: seq<File>): seq<File> {
    if fs == [] || le(f.path, fs[0].path) then [f] + fs else [fs[0]] + Insert(le, f, fs[1..])
  }

  /** The stable sort by path. */
  function SortByPath(le: (string, string) -> bool, fs: seq<File>): seq<File> {
    if fs == [] then [] else Insert(le, fs[0], SortByPath(le, fs[1..]))
  }

  ghost predicate Sorted(le: (string, string) -> bool, fs: seq<File>) {
    forall i, j :: 0 <= i < j < |fs| ==> le(fs[i].path, fs[j].path)
  }

  lemma {:induction false} InsertKeepsFiles(le: (string, string) -> bool, f: File, fs: seq<File>)
    ensures multiset(Insert(le, f, fs)) == multiset(fs) + multiset{f}
  {
    if fs != [] && !le(f.path, fs[0].path) {
      InsertKeepsFiles(le, f, fs[1..]);
      PutFirst(fs[0], Insert(le, f, fs[1..]));
      PutFirst(fs[0], fs[1..]);
      assert fs == [fs[0]] + fs[1..];
    } else {
      PutFirst(f, fs);
    }
  }

  lemma FirstIsSorted(le: (string, string) -> bool, f: File, fs: seq<File>)
    requires Sorted(le, fs) && forall g :: g in fs ==> le(f.path, g.path)
    ensures Sorted(le, [f] + fs)
  {
  }

  lemma {:induction false} InsertSorts(le: (string, string) -> bool, f: File, fs: seq<File>)
    requires IsOrder(le) && Sorted(le, fs)
    ensures Sorted(le, Insert(le, f, fs))
  {
    if fs == [] || le(f.path, fs[0].path) {
      forall g | g in fs ensures le(f.path, g.path) {
        HeadComesFirst(le, fs, g);
      }
      FirstIsSorted(le, f, fs);
    } else {
      var rest := Insert(le, f, fs[1..]);
      SortedTail(le, fs);
      InsertSorts(le, f, fs[1..]);
      InsertKeepsFiles(le, f, fs[1..]);
      forall g | g in rest ensures le(fs[0].path, g.path) {
        assert g in multiset(rest);
        if g != f {
          assert g in fs;
          HeadComesFirst(le, fs, g);
        }
      }
      FirstIsSorted(le, fs[0], rest);
    }
  }

  lemma {:induction false} SortSorts(le: (string, string) -> bool, fs: seq<File>)
    requires IsOrder(le)
    ensures Sorted(le, SortByPath(le, fs)) && multiset(SortByPath(le, fs)) == multiset(fs)
  {
    if fs != [] {
      SortSorts(le, fs[1..]);
      InsertSorts(le, fs[0], SortByPath(le, fs[1..]));
      InsertKeepsFiles(le, fs[0], SortByPath(le, fs[1..]));
      assert fs == [fs[0]] + fs[1..];
    }
  }

  // ----- Files that compare as equal ------------------------------------------------------------

  predicate Ties(le: (string, string) -> bool, f: File, g: File) { le(f.path, g.path) && le(g.path, f.path) }

  /** The files that compare as equal to `f`, in order. */
  function Tied(le: (string, string) -> bool, f: File, fs: seq<File>): seq<File> {
    if fs == [] then [] else (if Ties(le, f, fs[0]) then [fs[0]] else []) + Tied(le, f, fs[1..])
  }

  lemma {:induction false} TiedMembers(le: (string, string) -> bool, f: File, fs: seq<File>, g: File)
    ensures g in Tied(le, f, fs) <==> g in fs && Ties(le, f, g)
  {
    if fs != [] {
      TiedMembers(le, f, fs[1..], g);
    }
  }

  lemma {:induction false} TiedConcat(le: (string, string) -> bool, f: File, a: seq<File>, b: seq<File>)
    ensures Tied(le, f, a + b) == Tied(le, f, a) + Tied(le, f, b)
  {
    if a == [] {
      assert a + b == b;
    } else {
      assert (a + b)[1..] == a[1..] + b;
      TiedConcat(le, f, a[1..], b);
    }
  }

  lemma {:induction false} InsertIsStable(le: (string, string) -> bool, f: File, g: File, fs: seq<File>)
    requires IsOrder(le)
    ensures Tied(le, f, Insert(le, g, fs)) == (if Ties(le, f, g) then [g] else []) + Tied(le, f, fs)
  {
    if fs != [] && !le(g.path, fs[0].path) {
      InsertIsStable(le, f, g, fs[1..]);
      assert !(Ties(le, f, g) && Ties(le, f, fs[0]));
    }
  }

  /** The sort keeps files that compare as equal in their order. */
  lemma {:induction false} SortIsStable(le: (string, string) -> bool, f: File, fs: seq<File>)
    requires IsOrder(le)
    ensures Tied(le, f, SortByPath(le, fs)) == Tied(le, f, fs)
  {
    if fs != [] {
      SortIsStable(le, f, fs[1..]);
      InsertIsStable(le, f, fs[0], SortByPath(le, fs[1..]));
    }
  }

  lemma SortedTail(le: (string, string) -> bool, a: seq<File>)
    requires Sorted(le, a) && a != []
    ensures Sorted(le, a[1..])
  {
    assert forall k :: 0 <= k < |a[1..]| ==> a[1..][k] == a[k + 1];
  }

  /** A sorted list that holds a file comes no later than it. */
  lemma HeadComesFirst(le: (string, string) -> bool, a: seq<File>, f: File)
    requires IsOrder(le) && Sorted(le, a) && f in a
    ensures le(a[0].path, f.path)
  {
    var i :| 0 <= i < |a| && a[i] == f;
    assert i > 0 ==> le(a[0].path, a[i].path);
  }

  lemma HeadTies(le: (string, string) -> bool, f: File, a: seq<File>)
    requires IsOrder(le)
    ensures a != [] && f == a[0] ==> Tied(le, f, a) != []
  {
  }

  /** Order and ties determine a list. */
  lemma {:induction false} SortedIsUnique(le: (string, string) -> bool, a: seq<File>, b: seq<File>)
    requires IsOrder(le) && Sorted(le, a) && Sorted(le, b)
    requires forall f :: Tied(le, f, a) == Tied(le, f, b)
    ensures a == b
    decreases |a|
  {
    if a == [] {
      var f := if b == [] then File("", "") else b[0];
      assert Tied(le, f, a) == Tied(le, f, b) && Tied(le, f, a) == [];
      HeadTies(le, f, b);
    } else {
      var f := a[0];
      assert Tied(le, f, a) == Tied(le, f, b) && f in Tied(le, f, a);
      TiedMembers(le, f, b, f);
      var g := b[0];
      assert Tied(le, g, a) == Tied(le, g, b) && g in Tied(le, g, b);
      TiedMembers(le, g, a, g);
      HeadComesFirst(le, a, g);
      HeadComesFirst(le, b, f);
      assert Tied(le, f, a)[0] == f && Tied(le, f, b)[0] == g;
      forall h ensures Tied(le, h, a[1..]) == Tied(le, h, b[1..]) {
        assert Tied(le, h, a) == Tied(le, h, b);
        assert Tied(le, h, a[1..]) == Tied(le, h, a)[if Ties(le, h, f) then 1 else 0..];
        assert Tied(le, h, b[1..]) == Tied(le, h, b)[if Ties(le, h, f) then 1 else 0..];
      }
      SortedTail(le, a);
      SortedTail(le, b);
      SortedIsUnique(le, a[1..], b[1..]);
      assert a == [f] + a[1..] && b == [f] + b[1..];
    }
  }

  // ----- What is accepted -----------------------------------------------------------------------

  function Directories(listing: seq<RawEntry>): (r: seq<RawEntry>)
    ensures |r| <= |listing|
  {
    if listing == [] then []
    else
      var earlier := Directories(listing[..|listing| - 1]);
      if listing[|listing| - 1].isDirectory then earlier + [listing[|listing| - 1]] else earlier
  }

  function Digests(digest: Scenario -> Digest, scenarios: seq<Scenario>): (r: seq<Digest>)
    ensures |r| == |scenarios|
    ensures forall i :: 0 <= i < |r| ==> r[i] == digest(scenarios[i])
  {
    seq(|scenarios|, i requires 0 <= i < |scenarios| => digest(scenarios[i]))
  }

  function ScenariosOf(entries: seq<RawEntry>): (r: seq<Scenario>)
    ensures |r| == |entries|
    ensures forall i :: 0 <= i < |r| ==> r[i] == entries[i].scenario
  {
    seq(|entries|, i requires 0 <= i < |entries| => entries[i].scenario)
  }

  function FilesOf(entries: seq<RawEntry>): seq<File> {
    if entries == [] then []
    else
      var last := entries[|entries| - 1];
      FilesOf(entries[..|entries| - 1]) + if last.evidence.Some? then last.evidence.value else []
  }

  predicate AllPass(entries: seq<RawEntry>) {
    forall i :: 0 <= i < |entries| ==> entries[i].evidence.Some?
  }

  /** Raw directories and manifest scenarios match one to one, without duplicates on either side. */
  ghost predicate OneToOne(entries: seq<RawEntry>, scenarios: seq<Scenario>) {
    && NoDuplicates(ScenariosOf(entries)) && NoDuplicates(scenarios)
    && multiset(ScenariosOf(entries)) == multiset(scenarios)
  }

  /** The bundle is good; its result is then a function of the sorted files. */
  ghost function Verified(le: (string, string) -> bool, listing: seq<RawEntry>,
                          scenarios: seq<Scenario>): Option<seq<File>> {
    var entries := Directories(listing);
    if OneToOne(entries, scenarios) && AllPass(entries) then Some(SortByPath(le, FilesOf(entries))) else None
  }

  lemma DigestsKeepIdentity(digest: Scenario -> Digest, s: seq<Scenario>)
    requires Injective(digest)
    ensures NoDuplicates(Digests(digest, s)) <==> NoDuplicates(s)
    ensures forall x :: x in s <==> digest(x) in Elements(Digests(digest, s))
  {
    var ds := Digests(digest, s);
    if NoDuplicates(ds) {
      forall i, j | 0 <= i < j < |s| ensures s[i] != s[j] {
        assert ds[i] != ds[j];
      }
    }
    forall x ensures x in s <==> digest(x) in Elements(ds) {
      if x in s {
        var i :| 0 <= i < |s| && s[i] == x;
        assert ds[i] == digest(x);
      }
      if digest(x) in ds {
        var i :| 0 <= i < |ds| && ds[i] == digest(x);
        assert s[i] == x;
      }
    }
  }

  /** The counting test at the end of the loop is exactly the one-to-one match. */
  lemma CountingIsMatching(digest: Scenario -> Digest, entries: seq<RawEntry>, scenarios: seq<Scenario>)
    requires Injective(digest)
    ensures var observed := Digests(digest, ScenariosOf(entries));
            var expected := Digests(digest, scenarios);
            OneToOne(entries, scenarios) <==>
              && NoDuplicates(observed) && Elements(observed) <= Elements(expected)
              && |Elements(observed)| == |Elements(expected)| && |Elements(observed)| == |scenarios|
  {
    var raw := ScenariosOf(entries);
    var observed, expected := Digests(digest, raw), Digests(digest, scenarios);
    DigestsKeepIdentity(digest, raw);
    DigestsKeepIdentity(digest, scenarios);
    ElementsCount(observed);
    ElementsCount(expected);
    if OneToOne(entries, scenarios) {
      SameElementsSameMultiset(raw, scenarios);
      SameDigests(digest, raw, scenarios);
    } else if NoDuplicates(observed) && Elements(observed) <= Elements(expected)
              && |Elements(observed)| == |Elements(expected)| && |Elements(observed)| == |scenarios| {
      SubsetOfSameSize(Elements(observed), Elements(expected));
      forall x ensures x in Elements(raw) <==> x in Elements(scenarios) {
        assert x in raw <==> digest(x) in Elements(observed);
        assert x in scenarios <==> digest(x) in Elements(expected);
      }
      SameElementsSameMultiset(raw, scenarios);
    }
  }

  lemma SameDigests(digest: Scenario -> Digest, a: seq<Scenario>, b: seq<Scenario>)
    requires Elements(a) == Elements(b)
    ensures Elements(Digests(digest, a)) == Elements(Digests(digest, b))
  {
    forall d ensures d in Digests(digest, a) <==> d in Digests(digest, b) {
      DigestIn(digest, a, b, d);
      DigestIn(digest, b, a, d);
    }
  }

  lemma DigestIn(digest: Scenario -> Digest, a: seq<Scenario>, b: seq<Scenario>, d: Digest)
    requires Elements(a) == Elements(b)
    ensures d in Digests(digest, a) ==> d in Digests(digest, b)
  {
    if d in Digests(digest, a) {
      var i :| 0 <= i < |a| && Digests(digest, a)[i] == d;
      assert a[i] in Elements(a) && a[i] in b;
      var j :| 0 <= j < |b| && b[j] == a[i];
      assert Digests(digest, b)[j] == d;
    }
  }

  // ----- The order of the listing ---------------------------------------------------------------

  function EntryFiles(e: RawEntry): seq<File> {
    if e.isDirectory && e.evidence.Some? then e.evidence.value else []
  }

  function FileWeight(f: File): RawEntry -> nat { (e: RawEntry) => multiset(EntryFiles(e))[f] }

  function ScenarioWeight(s: Scenario): RawEntry -> nat {
    (e: RawEntry) => if e.isDirectory && e.scenario == s then 1 else 0
  }

  function FailureWeight(): RawEntry -> nat { (e: RawEntry) => if e.isDirectory && e.evidence.None? then 1 else 0 }

  lemma {:induction false} FilesAreWeighed(listing: seq<RawEntry>, f: File)
    ensures multiset(FilesOf(Directories(listing)))[f] == Weigh(listing, FileWeight(f))
  {
    if listing != [] {
      FilesAreWeighed(listing[..|listing| - 1], f);
      assert listing == listing[..|listing| - 1] + [listing[|listing| - 1]];
      DirectoriesSnoc(listing[..|listing| - 1], listing[|listing| - 1]);
    }
  }

  lemma {:induction false} ScenariosAreWeighed(listing: seq<RawEntry>, s: Scenario)
    ensures multiset(ScenariosOf(Directories(listing)))[s] == Weigh(listing, ScenarioWeight(s))
  {
    if listing != [] {
      var front, last := listing[..|listing| - 1], listing[|listing| - 1];
      ScenariosAreWeighed(front, s);
      if last.isDirectory {
        assert ScenariosOf(Directories(listing)) == ScenariosOf(Directories(front)) + [last.scenario];
      }
    }
  }

  lemma {:induction false} FailuresAreWeighed(listing: seq<RawEntry>)
    ensures AllPass(Directories(listing)) <==> Weigh(listing, FailureWeight()) == 0
  {
    if listing != [] {
      var front, last := listing[..|listing| - 1], listing[|listing| - 1];
      FailuresAreWeighed(front);
      if last.isDirectory {
        var ds := Directories(front);
        assert Directories(listing) == ds + [last];
        assert (ds + [last])[|ds|] == last && forall i :: 0 <= i < |ds| ==> (ds + [last])[i] == ds[i];
      }
    }
  }

  lemma DirectoriesSnoc(front: seq<RawEntry>, last: RawEntry)
    ensures Directories(front + [last]) == if last.isDirectory then Directories(front) + [last] else Directories(front)
    ensures multiset(FilesOf(Directories(front + [last])))
       == multiset(FilesOf(Directories(front))) + multiset(EntryFiles(last))
  {
    assert (front + [last])[..|front|] == front;
    if last.isDirectory {
      var ds := Directories(front);
      assert (ds + [last])[..|ds|] == ds;
      assert FilesOf(ds + [last]) == FilesOf(ds) + EntryFiles(last);
    }
  }

  /** What a listing contributes depends only on which entries it has. */
  lemma PermutedListing(a: seq<RawEntry>, b: seq<RawEntry>)
    requires multiset(a) == multiset(b)
    ensures multiset(FilesOf(Directories(a))) == multiset(FilesOf(Directories(b)))
    ensures multiset(ScenariosOf(Directories(a))) == multiset(ScenariosOf(Directories(b)))
    ensures AllPass(Directories(a)) <==> AllPass(Directories(b))
  {
    forall f ensures multiset(FilesOf(Directories(a)))[f] == multiset(FilesOf(Directories(b)))[f] {
      FilesAreWeighed(a, f);
      FilesAreWeighed(b, f);
      WeighPermuted(a, b, FileWeight(f));
    }
    forall s ensures multiset(ScenariosOf(Directories(a)))[s] == multiset(ScenariosOf(Directories(b)))[s] {
      ScenariosAreWeighed(a, s);
      ScenariosAreWeighed(b, s);
      WeighPermuted(a, b, ScenarioWeight(s));
    }
    FailuresAreWeighed(a);
    FailuresAreWeighed(b);
    WeighPermuted(a, b, FailureWeight());
  }

  /** The files of an entry that compare as equal to `f`. */
  function Share(le: (string, string) -> bool, f: File, e: RawEntry): seq<File> { Tied(le, f, EntryFiles(e)) }

  function Shares(le: (string, string) -> bool, f: File, listing: seq<RawEntry>): seq<File> {
    if listing == [] then []
    else Shares(le, f, listing[..|listing| - 1]) + Share(le, f, listing[|listing| - 1])
  }

  lemma {:induction false} FilesAreShares(le: (string, string) -> bool, f: File, listing: seq<RawEntry>)
    ensures Tied(le, f, FilesOf(Directories(listing))) == Shares(le, f, listing)
  {
    if listing != [] {
      var front, last := listing[..|listing| - 1], listing[|listing| - 1];
      FilesAreShares(le, f, front);
      TiedConcat(le, f, FilesOf(Directories(front)), EntryFiles(last));
      if last.isDirectory {
        var ds := Directories(front);
        assert (ds + [last])[..|ds|] == ds;
        assert FilesOf(ds + [last]) == FilesOf(ds) + EntryFiles(last);
      }
    }
  }

  lemma {:induction false} LastShare(le: (string, string) -> bool, f: File, listing: seq<RawEntry>, x: RawEntry)
    ensures Shares(le, f, listing + [x]) == Shares(le, f, listing) + Share(le, f, x)
  {
    assert (listing + [x])[..|listing|] == listing;
  }

  lemma {:induction false} SharesConcat(le: (string, string) -> bool, f: File, a: seq<RawEntry>, b: seq<RawEntry>)
    ensures Shares(le, f, a + b) == Shares(le, f, a) + Shares(le, f, b)
  {
    if b == [] {
      assert a + b == a && Shares(le, f, b) == [];
    } else {
      var front, last := b[..|b| - 1], b[|b| - 1];
      assert a + b == (a + front) + [last] && b == front + [last];
      SharesConcat(le, f, a, front);
      LastShare(le, f, a + front, last);
      Associates(Shares(le, f, a), Shares(le, f, front), Share(le, f, last));
    }
  }

  /** The shares of any two entries can be exchanged. */
  ghost predicate Commuting(le: (string, string) -> bool, f: File, listing: seq<RawEntry>) {
    forall x, y :: x in listing && y in listing
        ==> Share(le, f, x) + Share(le, f, y) == Share(le, f, y) + Share(le, f, x)
  }

  /** A share can be moved behind those of all other entries. */
  lemma {:induction false} ShareMoves(le: (string, string) -> bool, f: File, x: RawEntry, later: seq<RawEntry>)
    requires forall y :: y in later ==> Share(le, f, x) + Share(le, f, y) == Share(le, f, y) + Share(le, f, x)
    ensures Share(le, f, x) + Shares(le, f, later) == Shares(le, f, later) + Share(le, f, x)
  {
    if later != [] {
      var front, y := later[..|later| - 1], later[|later| - 1];
      var p, q, r := Share(le, f, x), Shares(le, f, front), Share(le, f, y);
      ShareMoves(le, f, x, front);
      Associates(p, q, r);
      Associates(q, p, r);
      Associates(q, r, p);
    }
  }

  lemma {:induction false} SharesRemove(le: (string, string) -> bool, f: File, listing: seq<RawEntry>, k: nat)
    requires k < |listing| && Commuting(le, f, listing)
    ensures Shares(le, f, listing) == Shares(le, f, listing[..k] + listing[k + 1..]) + Share(le, f, listing[k])
  {
    var before, x, later := listing[..k], listing[k], listing[k + 1..];
    assert listing == before + ([x] + later);
    assert forall y :: y in later ==> y in listing;
    SharesAround(le, f, before, x, later);
    ShareMoves(le, f, x, later);
    SharesConcat(le, f, before, later);
    Associates(Shares(le, f, before), Shares(le, f, later), Share(le, f, x));
  }

  lemma {:induction false} SharesAround(le: (string, string) -> bool, f: File, before: seq<RawEntry>, x: RawEntry,
                                        later: seq<RawEntry>)
    ensures Shares(le, f, before + ([x] + later)) == Shares(le, f, before) + (Share(le, f, x) + Shares(le, f, later))
  {
    SharesConcat(le, f, before, [x] + later);
    FirstShare(le, f, x, later);
  }

  lemma {:induction false} SharesPermuted(le: (string, string) -> bool, f: File, a: seq<RawEntry>, b: seq<RawEntry>)
    requires multiset(a) == multiset(b) && Commuting(le, f, a)
    ensures Shares(le, f, a) == Shares(le, f, b)
    decreases |a|
  {
    assert |multiset(a)| == |a| && |multiset(b)| == |b|;
    if a != [] {
      var n := |a| - 1;
      assert a[n] in multiset(b);
      var k :| 0 <= k < |b| && b[k] == a[n];
      WithoutLast(a, b, k);
      forall x | x in b ensures x in a { assert x in multiset(a); }
      SharesRemove(le, f, b, k);
      SharesPermuted(le, f, a[..n], b[..k] + b[k + 1..]);
    }
  }

  /** The verdict depends only on which entries there are; the files come in the order of their shares. */
  lemma {:induction false} VerifiedPermuted(le: (string, string) -> bool, a: seq<RawEntry>, b: seq<RawEntry>,
                                            scenarios: seq<Scenario>)
    requires IsOrder(le) && multiset(a) == multiset(b)
    ensures Verified(le, a, scenarios).Some? <==> Verified(le, b, scenarios).Some?
    ensures (forall f :: Shares(le, f, a) == Shares(le, f, b))
       ==> Verified(le, a, scenarios) == Verified(le, b, scenarios)
  {
    PermutedListing(a, b);
    NoDuplicatesAsMultiset(ScenariosOf(Directories(a)), ScenariosOf(Directories(b)));
    if forall f :: Shares(le, f, a) == Shares(le, f, b) {
      SharesDetermineSort(le, a, b);
    }
  }

  lemma SharesDetermineSort(le: (string, string) -> bool, a: seq<RawEntry>, b: seq<RawEntry>)
    requires IsOrder(le) && forall f :: Shares(le, f, a) == Shares(le, f, b)
    ensures SortByPath(le, FilesOf(Directories(a))) == SortByPath(le, FilesOf(Directories(b)))
  {
    var fa, fb := FilesOf(Directories(a)), FilesOf(Directories(b));
    forall f ensures Tied(le, f, SortByPath(le, fa)) == Tied(le, f, SortByPath(le, fb)) {
      SortedShares(le, f, a);
      SortedShares(le, f, b);
      assert Shares(le, f, a) == Shares(le, f, b);
    }
    SortSorts(le, fa);
    SortSorts(le, fb);
    SortedIsUnique(le, SortByPath(le, fa), SortByPath(le, fb));
  }

  lemma {:induction false} SortedShares(le: (string, string) -> bool, f: File, listing: seq<RawEntry>)
    requires IsOrder(le)
    ensures Tied(le, f, SortByPath(le, FilesOf(Directories(listing)))) == Shares(le, f, listing)
  {
    SortIsStable(le, f, FilesOf(Directories(listing)));
    FilesAreShares(le, f, listing);
  }

  /** The result is the same for every order in which the same entries may be listed. */
  ghost predicate OrderIsIrrelevant(le: (string, string) -> bool, a: seq<RawEntry>, scenarios: seq<Scenario>) {
    forall b :: multiset(a) == multiset(b) ==> Verified(le, a, scenarios) == Verified(le, b, scenarios)
  }

  /** Two entries of a listing, brought to its front. */
  lemma BroughtToFront(a: seq<RawEntry>, x: RawEntry, y: RawEntry) returns (rest: seq<RawEntry>)
    requires x in a && y in a && x != y
    ensures multiset([x] + ([y] + rest)) == multiset(a) == multiset([y] + ([x] + rest))
  {
    var others := TakenOut(a, x);
    assert y in multiset(a) && y in multiset(others);
    rest := TakenOut(others, y);
    PutFirst(y, rest);
    PutFirst(x, [y] + rest);
    PutFirst(x, rest);
    PutFirst(y, [x] + rest);
  }

  lemma {:induction false} FirstShare(le: (string, string) -> bool, f: File, x: RawEntry, rest: seq<RawEntry>)
    ensures Shares(le, f, [x] + rest) == Share(le, f, x) + Shares(le, f, rest)
  {
    SharesConcat(le, f, [x], rest);
    assert [x][..0] == [] && Shares(le, f, [x]) == [] + Share(le, f, x);
  }

  lemma {:induction false} SharesOfThree(le: (string, string) -> bool, f: File, x: RawEntry, y: RawEntry,
                                         rest: seq<RawEntry>)
    ensures Shares(le, f, [x] + ([y] + rest)) == (Share(le, f, x) + Share(le, f, y)) + Shares(le, f, rest)
  {
    FirstShare(le, f, x, [y] + rest);
    FirstShare(le, f, y, rest);
    Associates(Share(le, f, x), Share(le, f, y), Shares(le, f, rest));
  }

  lemma {:induction false} IrrelevantOrderCommutes(le: (string, string) -> bool, a: seq<RawEntry>,
                                                   scenarios: seq<Scenario>, f: File, x: RawEntry, y: RawEntry)
    requires IsOrder(le) && OrderIsIrrelevant(le, a, scenarios) && Verified(le, a, scenarios).Some?
    requires x in a && y in a && x != y
    ensures Share(le, f, x) + Share(le, f, y) == Share(le, f, y) + Share(le, f, x)
  {
    var rest := BroughtToFront(a, x, y);
    var p, q := [x] + ([y] + rest), [y] + ([x] + rest);
    SameResultSameShares(le, a, p, scenarios, f);
    SameResultSameShares(le, a, q, scenarios, f);
    SharesOfThree(le, f, x, y, rest);
    SharesOfThree(le, f, y, x, rest);
    SamePrefix(Share(le, f, x) + Share(le, f, y), Share(le, f, y) + Share(le, f, x), Shares(le, f, rest));
  }

  lemma {:induction false} SameResultSameShares(le: (string, string) -> bool, a: seq<RawEntry>, b: seq<RawEntry>,
                                                scenarios: seq<Scenario>, f: File)
    requires IsOrder(le) && OrderIsIrrelevant(le, a, scenarios) && Verified(le, a, scenarios).Some?
    requires multiset(a) == multiset(b)
    ensures Shares(le, f, a) == Shares(le, f, b)
  {
    assert Verified(le, a, scenarios) == Verified(le, b, scenarios);
    SortedShares(le, f, a);
    SortedShares(le, f, b);
  }

  /** The listing order is irrelevant exactly when the bundle is refused or all ties can be exchanged. */
  lemma {:induction false} OrderIsIrrelevantExactly(le: (string, string) -> bool, a: seq<RawEntry>,
                                                    scenarios: seq<Scenario>)
    requires IsOrder(le)
    ensures OrderIsIrrelevant(le, a, scenarios)
       <==> Verified(le, a, scenarios).None? || forall f :: Commuting(le, f, a)
  {
    if OrderIsIrrelevant(le, a, scenarios) && Verified(le, a, scenarios).Some? {
      forall f ensures Commuting(le, f, a) {
        forall x, y | x in a && y in a
          ensures Share(le, f, x) + Share(le, f, y) == Share(le, f, y) + Share(le, f, x)
        {
          if x != y {
            IrrelevantOrderCommutes(le, a, scenarios, f, x, y);
          }
        }
      }
    }
    if Verified(le, a, scenarios).None? || forall f :: Commuting(le, f, a) {
      forall b | multiset(a) == multiset(b) ensures Verified(le, a, scenarios) == Verified(le, b, scenarios) {
        VerifiedPermuted(le, a, b, scenarios);
        if Verified(le, a, scenarios).Some? {
          forall f ensures Shares(le, f, a) == Shares(le, f, b) { SharesPermuted(le, f, a, b); }
        }
      }
    }
  }

  /** Files of different directories have different paths: each path starts with its directory's name. */
  ghost predicate OwnPaths(listing: seq<RawEntry>) {
    forall x, y, f, g :: x in listing && y in listing && x != y && f in EntryFiles(x) && g in EntryFiles(y)
        ==> f.path != g.path
  }

  /** No two different files of different directories compare as equal. */
  ghost predicate NoTiesAcross(le: (string, string) -> bool, listing: seq<RawEntry>) {
    forall x, y, f, g :: x in listing && y in listing && x != y && f in EntryFiles(x) && g in EntryFiles(y) && f != g
      ==> !Ties(le, f, g)
  }

  lemma {:induction false} SharesOfTies(le: (string, string) -> bool, a: seq<RawEntry>, f: File, x: RawEntry,
                                        y: RawEntry)
    requires IsOrder(le) && OwnPaths(a) && NoTiesAcross(le, a) && x in a && y in a
    ensures Share(le, f, x) + Share(le, f, y) == Share(le, f, y) + Share(le, f, x)
  {
    if x != y && Share(le, f, x) != [] && Share(le, f, y) != [] {
      var g, h := Share(le, f, x)[0], Share(le, f, y)[0];
      TiedMembers(le, f, EntryFiles(x), g);
      TiedMembers(le, f, EntryFiles(y), h);
      assert g.path != h.path && Ties(le, g, h);
      assert false;
    } else if Share(le, f, x) == [] {
      assert [] + Share(le, f, y) == Share(le, f, y) + [];
    } else if Share(le, f, y) == [] {
      assert [] + Share(le, f, x) == Share(le, f, x) + [];
    }
  }

  lemma {:induction false} CommutingHasNoTies(le: (string, string) -> bool, a: seq<RawEntry>, x: RawEntry, y: RawEntry,
                                              f: File, g: File)
    requires IsOrder(le) && OwnPaths(a) && Commuting(le, f, a)
    requires x in a && y in a && x != y && f in EntryFiles(x) && g in EntryFiles(y)
    ensures !Ties(le, f, g)
  {
    if Ties(le, f, g) {
      var p, q := Share(le, f, x), Share(le, f, y);
      TiedMembers(le, f, EntryFiles(x), f);
      TiedMembers(le, f, EntryFiles(y), g);
      SameHead(p, q);
      TiedMembers(le, f, EntryFiles(x), p[0]);
      TiedMembers(le, f, EntryFiles(y), p[0]);
      assert false;
    }
  }

  lemma {:induction false} TiesAcross(le: (string, string) -> bool, a: seq<RawEntry>)
    requires IsOrder(le) && OwnPaths(a)
    ensures NoTiesAcross(le, a) <==> forall f :: Commuting(le, f, a)
  {
    if NoTiesAcross(le, a) {
      forall f, x, y | x in a && y in a
        ensures Share(le, f, x) + Share(le, f, y) == Share(le, f, y) + Share(le, f, x)
      {
        SharesOfTies(le, a, f, x, y);
      }
    }
    if forall f :: Commuting(le, f, a) {
      forall x, y, f, g | x in a && y in a && x != y && f in EntryFiles(x) && g in EntryFiles(y) && f != g
        ensures !Ties(le, f, g)
      {
        CommutingHasNoTies(le, a, x, y, f, g);
      }
    }
  }

  /**
   Verdict and files do not depend on the order in which the directory was listed exactly when the
   bundle is refused or no two different files of different directories compare as equal.
   */
  lemma {:induction false} ListingOrderDoesNotMatter(le: (string, string) -> bool, a: seq<RawEntry>,
                                                     scenarios: seq<Scenario>)
    requires IsOrder(le) && OwnPaths(a)
    ensures OrderIsIrrelevant(le, a, scenarios) <==> Verified(le, a, scenarios).None? || NoTiesAcross(le, a)
  {
    OrderIsIrrelevantExactly(le, a, scenarios);
    TiesAcross(le, a);
  }

  lemma ListTwo(x: RawEntry, y: RawEntry)
    requires x.isDirectory && y.isDirectory
    ensures Directories([x, y]) == [x, y]
  {
    assert [x, y][..1] == [x] && [x][..0] == [];
    assert Directories([x]) == [] + [x];
    assert [x] + [y] == [x, y];
  }

  lemma TwoMatch(x: RawEntry, y: RawEntry, p: RawEntry, q: RawEntry)
    requires x.scenario != y.scenario && ((p, q) == (x, y) || (p, q) == (y, x))
    ensures OneToOne([x, y], [p.scenario, q.scenario])
  {
    assert ScenariosOf([x, y]) == [x.scenario, y.scenario];
  }

  lemma {:induction false} SharesOfTwo(le: (string, string) -> bool, f: File, x: RawEntry, y: RawEntry)
    ensures Shares(le, f, [x, y]) == Share(le, f, x) + Share(le, f, y)
  {
    assert [x, y] == [x] + ([y] + []);
    SharesOfThree(le, f, x, y, []);
    assert Shares(le, f, []) == [];
  }

  /**
   Two directories, whatever files they have, of which one of each compare as equal: both listings of
   them are accepted, and the result tells in which order they were listed.
   */
  lemma {:induction false} TiedFilesKeepListingOrder(le: (string, string) -> bool, x: RawEntry, y: RawEntry, f: File,
                                                     g: File)
    requires IsOrder(le) && OwnPaths([x, y]) && x.scenario != y.scenario
    requires x.isDirectory && x.evidence.Some? && y.isDirectory && y.evidence.Some?
    requires f in x.evidence.value && g in y.evidence.value && Ties(le, f, g)
    ensures var scenarios := [x.scenario, y.scenario];
          && Verified(le, [x, y], scenarios).Some? && Verified(le, [y, x], scenarios).Some?
            && Verified(le, [x, y], scenarios) != Verified(le, [y, x], scenarios)
  {
    AcceptedPair(le, x, y, x, y);
    AcceptedPair(le, y, x, x, y);
    SortsDiffer(le, x, y, f, g);
  }

  lemma {:induction false} AcceptedPair(le: (string, string) -> bool, x: RawEntry, y: RawEntry, p: RawEntry,
                                        q: RawEntry)
    requires x.isDirectory && x.evidence.Some? && y.isDirectory && y.evidence.Some?
    requires x.scenario != y.scenario && ((p, q) == (x, y) || (p, q) == (y, x))
    ensures Verified(le, [x, y], [p.scenario, q.scenario]) == Some(SortByPath(le, FilesOf(Directories([x, y]))))
  {
    ListTwo(x, y);
    TwoMatch(x, y, p, q);
  }

  lemma {:induction false} SortsDiffer(le: (string, string) -> bool, x: RawEntry, y: RawEntry, f: File, g: File)
    requires IsOrder(le) && OwnPaths([x, y]) && x != y
    requires f in EntryFiles(x) && g in EntryFiles(y) && Ties(le, f, g)
    ensures SortByPath(le, FilesOf(Directories([x, y]))) != SortByPath(le, FilesOf(Directories([y, x])))
  {
    SortedShares(le, f, [x, y]);
    SortedShares(le, f, [y, x]);
    SharesOfTwo(le, f, x, y);
    SharesOfTwo(le, f, y, x);
    SharesDiffer(le, x, y, f, g);
  }

  lemma {:induction false} SharesDiffer(le: (string, string) -> bool, x: RawEntry, y: RawEntry, f: File, g: File)
    requires IsOrder(le) && OwnPaths([x, y]) && x != y
    requires f in EntryFiles(x) && g in EntryFiles(y) && Ties(le, f, g)
    ensures Share(le, f, x) + Share(le, f, y) != Share(le, f, y) + Share(le, f, x)
  {
    if Share(le, f, x) + Share(le, f, y) == Share(le, f, y) + Share(le, f, x) {
      assert x in [x, y] && y in [x, y];
      CommutingHasNoTies(le, [x, y], x, y, f, g);
    }
  }

  // ----- The verifier ---------------------------------------------------------------------------

  method VerifyEvidenceBundle(digest: Scenario -> Digest, le: (string, string) -> bool, listing: seq<RawEntry>,
                              scenarios: seq<Scenario>)
    returns (r: Option<seq<File>>)
    requires Injective(digest)
    ensures r == Verified(le, listing, scenarios)
  {
    var expectedDigests := set i | 0 <= i < |scenarios| :: digest(scenarios[i]);
    ManifestDigests(digest, scenarios);
    var observedDigests: set<Digest> := {};
    var files: seq<File> := [];
    for i := 0 to |listing|
      invariant Seen(digest, listing[..i], observedDigests, files, expectedDigests)
    {
      var entry := listing[i];
      assert listing[..i + 1] == listing[..i] + [entry];
      if !entry.isDirectory {
        SeenSkips(digest, listing[..i], entry, observedDigests, files, expectedDigests);
        continue;
      }
      var d := digest(entry.scenario);
      if d !in expectedDigests || d in observedDigests || entry.evidence.None? {
        EntryIsRefused(digest, le, listing, scenarios, i, observedDigests, files);
        return None;
      }
      SeenGrows(digest, listing[..i], entry, observedDigests, files, expectedDigests);
      observedDigests := observedDigests + {d};
      files := files + entry.evidence.value;
    }
    assert listing[..|listing|] == listing;
    CountsDecide(digest, le, listing, scenarios, observedDigests, files);
    if |observedDigests| != |expectedDigests| || |observedDigests| != |scenarios| {
      return None;
    }
    r := Some(SortByPath(le, files));
  }

  lemma ManifestDigests(digest: Scenario -> Digest, scenarios: seq<Scenario>)
    ensures (set i | 0 <= i < |scenarios| :: digest(scenarios[i])) == Elements(Digests(digest, scenarios))
  {
    var expected := Digests(digest, scenarios);
    assert forall i :: 0 <= i < |scenarios| ==> expected[i] == digest(scenarios[i]);
  }

  /** What the loop has established about the entries it has passed. */
  ghost predicate Seen(digest: Scenario -> Digest, passed: seq<RawEntry>, observed: set<Digest>, files: seq<File>,
                       expected: set<Digest>)
  {
    var entries := Directories(passed);
    var ds := Digests(digest, ScenariosOf(entries));
    && observed == Elements(ds) && NoDuplicates(ds) && observed <= expected && AllPass(entries)
    && files == FilesOf(entries)
  }

  lemma SeenGrows(digest: Scenario -> Digest, passed: seq<RawEntry>, e: RawEntry, observed: set<Digest>,
                  files: seq<File>, expected: set<Digest>)
    requires Seen(digest, passed, observed, files, expected) && e.isDirectory && e.evidence.Some?
    requires digest(e.scenario) in expected && digest(e.scenario) !in observed
    ensures Seen(digest, passed + [e], observed + {digest(e.scenario)}, files + e.evidence.value, expected)
  {
    var entries := Directories(passed);
    var ds := Digests(digest, ScenariosOf(entries));
    assert Directories(passed + [e]) == entries + [e] by { DirectoriesSnoc(passed, e); }
    assert Digests(digest, ScenariosOf(entries + [e])) == ds + [digest(e.scenario)];
    OneMoreElement(ds, digest(e.scenario));
    assert (entries + [e])[..|entries|] == entries;
  }

  lemma SeenSkips(digest: Scenario -> Digest, passed: seq<RawEntry>, e: RawEntry, observed: set<Digest>,
                  files: seq<File>, expected: set<Digest>)
    requires Seen(digest, passed, observed, files, expected) && !e.isDirectory
    ensures Seen(digest, passed + [e], observed, files, expected)
  {
    DirectoriesSnoc(passed, e);
  }

  lemma CountsDecide(digest: Scenario -> Digest, le: (string, string) -> bool, listing: seq<RawEntry>,
                     scenarios: seq<Scenario>, observed: set<Digest>, files: seq<File>)
    requires Injective(digest) && Seen(digest, listing, observed, files, Elements(Digests(digest, scenarios)))
    ensures Verified(le, listing, scenarios)
         == if |observed| == |Elements(Digests(digest, scenarios))| && |observed| == |scenarios|
            then Some(SortByPath(le, files)) else None
  {
    CountingIsMatching(digest, Directories(listing), scenarios);
  }

  lemma {:induction false} DirectoriesKeep(listing: seq<RawEntry>, i: nat)
    requires i < |listing| && listing[i].isDirectory
    ensures Directories(listing[..i]) + [listing[i]] <= Directories(listing)
    decreases |listing|
  {
    var n := |listing| - 1;
    if i < n {
      assert listing[..n][..i] == listing[..i];
      DirectoriesKeep(listing[..n], i);
    }
  }

  /** An entry that the loop refuses spoils the whole match. */
  lemma SpoiledByEntry(digest: Scenario -> Digest, passed: seq<RawEntry>, e: RawEntry, entries: seq<RawEntry>,
                       observed: set<Digest>, expected: set<Digest>)
    requires passed + [e] <= entries && observed == Elements(Digests(digest, ScenariosOf(passed)))
    requires digest(e.scenario) !in expected || digest(e.scenario) in observed || e.evidence.None?
    ensures var ds := Digests(digest, ScenariosOf(entries));
            !(NoDuplicates(ds) && Elements(ds) <= expected && AllPass(entries))
  {
    var k := |passed|;
    var ds, before := Digests(digest, ScenariosOf(entries)), Digests(digest, ScenariosOf(passed));
    assert entries[k] == (passed + [e])[k] == e;
    assert ds[k] == digest(e.scenario) && ds[k] in Elements(ds);
    if digest(e.scenario) in observed {
      var j :| 0 <= j < |before| && before[j] == digest(e.scenario);
      assert entries[j] == (passed + [e])[j] == passed[j];
      assert ds[j] == ds[k];
    }
  }

  /** A refused entry: nothing is verified. */
  lemma EntryIsRefused(digest: Scenario -> Digest, le: (string, string) -> bool, listing: seq<RawEntry>,
                       scenarios: seq<Scenario>, i: nat, observed: set<Digest>, files: seq<File>)
    requires Injective(digest) && i < |listing| && listing[i].isDirectory
    requires Seen(digest, listing[..i], observed, files, Elements(Digests(digest, scenarios)))
    requires var d := digest(listing[i].scenario);
             d !in Elements(Digests(digest, scenarios)) || d in observed || listing[i].evidence.None?
    ensures Verified(le, listing, scenarios).None?
  {
    DirectoriesKeep(listing, i);
    SpoiledByEntry(digest, Directories(listing[..i]), listing[i], Directories(listing), observed,
                   Elements(Digests(digest, scenarios)));
    CountingIsMatching(digest, Directories(listing), scenarios);
  }
}
