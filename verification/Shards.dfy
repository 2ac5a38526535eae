/**
 Validation of sharded test results (scripts/backend_non_postgres_gate.py:519-676, 782-814,
 1676-1693): the partition of the collected tests, the check of one JUnit document, and the
 combination of two shards into one verdict.

 Node ids are represented by their position in string order.
 */
module Shards {
  import opened Calendar
  import opened Permutations

  type NodeId = nat

  datatype Tag = Testsuites | Testsuite | Testcase | ErrorTag | FailureTag | SkippedTag | OtherTag

  /** A declared attribute: missing, a number, or text that is not a number. */
  datatype Declared = Missing | Number(n: nat) | NotANumber

  datatype Counts = Counts(errors: Declared, failures: Declared, skipped: Declared, tests: Declared)

  /** An element with its declared counts, its test identity if it has one, and its children. */
  datatype Element = Element(tag: Tag, declared: Counts, identity: Option<NodeId>, children: seq<Element>)

  datatype GateError =
    | ExitNonzero
    | EmptyOrOversized
    | NotUtf8
    | ForbiddenXml
    | Malformed
    | RootInvalid
    | ZeroCollection
    | ConflictingOutcomes
    | SkipIdentityInvalid
    | DeclaredCountInvalid
    | CaseCountDrift
    | ContainerCountDrift
    | SkipSetNotDeclared
    | FailedTestcases(n: nat)
    | CollectionInvalid
    | InnerPartitionInvalid
    | InnerNodeMissing
    | PartitionNotExact
    | ShardCountMismatch

  datatype Result<+T> = Ok(value: T) | Err(error: GateError)

  datatype Verdict = Verdict(failed: nat, passed: int, skipped: nat, skipIds: seq<NodeId>, total: nat)

  // ----- traversal

  function Iter(e: Element): seq<Element>
    decreases e, 1
  {
    [e] + IterAll(e.children)
  }

  function IterAll(es: seq<Element>): seq<Element>
    decreases es, 0
  {
    if es == [] then [] else Iter(es[0]) + IterAll(es[1..])
  }

  function WithTag(es: seq<Element>, tag: Tag): seq<Element> {
    if es == [] then [] else
      WithTag(es[..|es| - 1], tag) + (if es[|es| - 1].tag == tag then [es[|es| - 1]] else [])
  }

  function CasesOf(root: Element): seq<Element> {
    WithTag(Iter(root), Testcase)
  }

  /** The root and every suite below it. */
  function ContainersOf(root: Element): seq<Element> {
    [root] + WithTag(IterAll(root.children), Testsuite)
  }

  predicate IsOutcome(tag: Tag) {
    tag.ErrorTag? || tag.FailureTag? || tag.SkippedTag?
  }

  /** Outcome tags among the direct children. */
  function Outcomes(children: seq<Element>): seq<Tag> {
    if children == [] then [] else
      var tag := children[|children| - 1].tag;
      Outcomes(children[..|children| - 1]) + (if IsOutcome(tag) then [tag] else [])
  }

  predicate Has(testcase: Element, outcome: Tag) {
    outcome in Outcomes(testcase.children)
  }

  function CountOf(cases: seq<Element>, outcome: Tag): nat {
    if cases == [] then 0 else
      CountOf(cases[..|cases| - 1], outcome) + (if Has(cases[|cases| - 1], outcome) then 1 else 0)
  }

  function SkippedIds(cases: seq<Element>): seq<NodeId> {
    if cases == [] then [] else
      var c := cases[|cases| - 1];
      SkippedIds(cases[..|cases| - 1])
      + (if Has(c, SkippedTag) && c.identity.Some? then [c.identity.value] else [])
  }

  // ----- the checks, in the order in which they fail

  function CheckCount(declared: Declared, expected: nat, drift: GateError): Option<GateError> {
    match declared
    case Missing => None
    case NotANumber => Some(DeclaredCountInvalid)
    case Number(n) => if n == expected then None else Some(drift)
  }

  function First(a: Option<GateError>, b: Option<GateError>): Option<GateError> {
    if a.Some? then a else b
  }

  function One(b: bool): nat {
    if b then 1 else 0
  }

  function CaseError(c: Element): Option<GateError> {
    if |Outcomes(c.children)| > 1 then Some(ConflictingOutcomes)
    else if Has(c, SkippedTag) && c.identity.None? then Some(SkipIdentityInvalid)
    else
      First(CheckCount(c.declared.errors, One(Has(c, ErrorTag)), CaseCountDrift),
            First(CheckCount(c.declared.failures, One(Has(c, FailureTag)), CaseCountDrift),
                  CheckCount(c.declared.skipped, One(Has(c, SkippedTag)), CaseCountDrift)))
  }

  function FirstCaseError(cases: seq<Element>): Option<GateError> {
    if cases == [] then None else
      First(FirstCaseError(cases[..|cases| - 1]), CaseError(cases[|cases| - 1]))
  }

  function ContainerError(c: Element): Option<GateError> {
    var cases := CasesOf(c);
    First(CheckCount(c.declared.errors, CountOf(cases, ErrorTag), ContainerCountDrift),
          First(CheckCount(c.declared.failures, CountOf(cases, FailureTag), ContainerCountDrift),
                First(CheckCount(c.declared.skipped, CountOf(cases, SkippedTag), ContainerCountDrift),
                      CheckCount(c.declared.tests, |cases|, ContainerCountDrift))))
  }

  function FirstContainerError(containers: seq<Element>): Option<GateError> {
    if containers == [] then None else
      First(FirstContainerError(containers[..|containers| - 1]), ContainerError(containers[|containers| - 1]))
  }

  // ----- sorted lists of node ids

  predicate IdAtMost(a: NodeId, b: NodeId) {
    a <= b
  }

  function Sort(xs: seq<NodeId>): (r: seq<NodeId>)
    ensures (forall i, j :: 0 <= i < j < |r| ==> r[i] <= r[j]) && multiset(r) == multiset(xs) && |r| == |xs|
  {
    SortSorts(xs, IdAtMost);
    SortBy(xs, IdAtMost)
  }

  /** Two lists sort to the same list exactly when they are rearrangements of each other. */
  lemma SortAgrees(xs: seq<NodeId>, ys: seq<NodeId>)
    ensures Sort(xs) == Sort(ys) <==> multiset(xs) == multiset(ys)
  {
    if multiset(xs) == multiset(ys) {
      assert SortedBy(Sort(xs), IdAtMost) && SortedBy(Sort(ys), IdAtMost);
      SortedUnique(Sort(xs), Sort(ys), IdAtMost);
    }
  }

  // ----- one document

  /** A result file: its size, whether it decodes, what its text declares, and the parsed root if it parses. */
  datatype Content = Content(bytes: nat, utf8: bool, forbidden: bool, declaresUtf8: bool, root: Option<Element>)

  const MAX_JUNIT_BYTES: nat := 16777216

  function ReadContent(content: Content): Result<Element> {
    if content.bytes == 0 || content.bytes > MAX_JUNIT_BYTES then Err(EmptyOrOversized)
    else if !content.utf8 then Err(NotUtf8)
    else if content.forbidden then Err(ForbiddenXml)
    else if !content.declaresUtf8 then Err(NotUtf8)
    else if content.root.None? then Err(Malformed)
    else Ok(content.root.value)
  }

  /** A file is read when it has a size within the limit, text, nothing forbidden in it, and one root element. */
  lemma ReadIs(content: Content)
    ensures ReadContent(content).Ok? <==>
      0 < content.bytes <= 16 * 1024 * 1024 && content.utf8 && !content.forbidden && content.declaresUtf8 &&
      content.root.Some?
    ensures ReadContent(content).Ok? ==> content.root == Some(ReadContent(content).value)
    ensures content.bytes == 0 || content.bytes > 16 * 1024 * 1024 <==> ReadContent(content) == Err(EmptyOrOversized)
    ensures ReadContent(content) == Err(Malformed) ==>
      content.utf8 && !content.forbidden && content.declaresUtf8 && content.root == None
    ensures ReadContent(content) == Err(ForbiddenXml) ==> content.utf8 && content.forbidden
    ensures ReadContent(content) == Err(NotUtf8) ==> !content.utf8 || (!content.forbidden && !content.declaresUtf8)
  {
  }

  function Validate(document: Result<Element>, exit: int, expectedSkips: seq<NodeId>): Result<Verdict> {
    if exit != 0 then Err(ExitNonzero)
    else if document.Err? then Err(document.error)
    else
      var root := document.value;
      var cases := CasesOf(root);
      if !root.tag.Testsuite? && !root.tag.Testsuites? then Err(RootInvalid)
      else if cases == [] then Err(ZeroCollection)
      else if FirstCaseError(cases).Some? then Err(FirstCaseError(cases).value)
      else if FirstContainerError(ContainersOf(root)).Some? then Err(FirstContainerError(ContainersOf(root)).value)
      else if Sort(SkippedIds(cases)) != Sort(expectedSkips) then Err(SkipSetNotDeclared)
      else
        var failed := CountOf(cases, FailureTag) + CountOf(cases, ErrorTag);
        var skipped := |SkippedIds(cases)|;
        if failed > 0 then Err(FailedTestcases(failed))
        else Ok(Verdict(failed, |cases| - failed - skipped, skipped, Sort(SkippedIds(cases)), |cases|))
  }

  /** Counting and checking the test cases, one by one. */
  method ReadCases(cases: seq<Element>) returns (error: Option<GateError>, failures: nat, errors: nat,
                                                  skipped: seq<NodeId>)
    ensures error == FirstCaseError(cases)
    ensures error == None ==> failures == CountOf(cases, FailureTag) && errors == CountOf(cases, ErrorTag) &&
                              skipped == SkippedIds(cases)
  {
    hide CaseError, Has;
    failures, errors, skipped := 0, 0, [];
    for i := 0 to |cases|
      invariant FirstCaseError(cases[..i]) == None
      invariant failures == CountOf(cases[..i], FailureTag) && errors == CountOf(cases[..i], ErrorTag)
      invariant skipped == SkippedIds(cases[..i])
    {
      var c := cases[i];
      assert cases[..i + 1][..i] == cases[..i];
      error := CaseError(c);
      if error.Some? {
        ErrorStays(cases, i + 1);
        return;
      }
      failures := failures + One(Has(c, FailureTag));
      errors := errors + One(Has(c, ErrorTag));
      if Has(c, SkippedTag) && c.identity.Some? {
        skipped := skipped + [c.identity.value];
      }
    }
    assert cases[..|cases|] == cases;
    error := None;
  }

  lemma {:induction false} ErrorStays(cases: seq<Element>, k: nat)
    requires k <= |cases| && FirstCaseError(cases[..k]).Some?
    ensures FirstCaseError(cases) == FirstCaseError(cases[..k])
    decreases |cases|
  {
    hide CaseError;
    if k == |cases| {
      assert cases[..k] == cases;
    } else {
      assert cases[..|cases| - 1][..k] == cases[..k];
      ErrorStays(cases[..|cases| - 1], k);
    }
  }

  method ReadContainers(containers: seq<Element>) returns (error: Option<GateError>)
    ensures error == FirstContainerError(containers)
  {
    hide ContainerError;
    for i := 0 to |containers|
      invariant FirstContainerError(containers[..i]) == None
    {
      assert containers[..i + 1][..i] == containers[..i];
      error := ContainerError(containers[i]);
      if error.Some? {
        ContainerErrorStays(containers, i + 1);
        return;
      }
    }
    assert containers[..|containers|] == containers;
    error := None;
  }

  lemma {:induction false} ContainerErrorStays(containers: seq<Element>, k: nat)
    requires k <= |containers| && FirstContainerError(containers[..k]).Some?
    ensures FirstContainerError(containers) == FirstContainerError(containers[..k])
    decreases |containers|
  {
    hide ContainerError;
    if k == |containers| {
      assert containers[..k] == containers;
    } else {
      assert containers[..|containers| - 1][..k] == containers[..k];
      ContainerErrorStays(containers[..|containers| - 1], k);
    }
  }

  method ValidateJunit(content: Content, exit: int, expectedSkips: seq<NodeId>) returns (r: Result<Verdict>)
    ensures r == Validate(ReadContent(content), exit, expectedSkips)
  {
    hide CasesOf, ContainersOf, Sort, FirstCaseError, FirstContainerError, CountOf, SkippedIds;
    if exit != 0 {
      return Err(ExitNonzero);
    }
    var document := ReadContent(content);
    if document.Err? {
      return Err(document.error);
    }
    var root := document.value;
    if !root.tag.Testsuite? && !root.tag.Testsuites? {
      return Err(RootInvalid);
    }
    var cases := CasesOf(root);
    if cases == [] {
      return Err(ZeroCollection);
    }
    var error, failures, errors, skipped := ReadCases(cases);
    if error.Some? {
      return Err(error.value);
    }
    error := ReadContainers(ContainersOf(root));
    if error.Some? {
      return Err(error.value);
    }
    if Sort(skipped) != Sort(expectedSkips) {
      return Err(SkipSetNotDeclared);
    }
    var failed := failures + errors;
    if failed > 0 {
      return Err(FailedTestcases(failed));
    }
    return Ok(Verdict(failed, |cases| - failed - |skipped|, |skipped|, Sort(skipped), |cases|));
  }

  // ----- the partition

  predicate Distinct(xs: seq<NodeId>) {
    forall i, j :: 0 <= i < j < |xs| ==> xs[i] != xs[j]
  }

  predicate IdsValid(xs: seq<NodeId>, wellFormed: NodeId -> bool) {
    xs != [] && Distinct(xs) && forall i :: 0 <= i < |xs| ==> wellFormed(xs[i])
  }

  /** The members of `xs` inside (or outside) a set, in order. */
  function Only(xs: seq<NodeId>, s: set<NodeId>, inside: bool): seq<NodeId> {
    if xs == [] then [] else
      var x := xs[|xs| - 1];
      Only(xs[..|xs| - 1], s, inside) + (if (x in s) == inside then [x] else [])
  }

  function SetOf(xs: seq<NodeId>): set<NodeId> {
    set x | x in xs
  }

  function Partition(collected: seq<NodeId>, inner: seq<NodeId>, wellFormed: NodeId -> bool)
    : Result<(seq<NodeId>, seq<NodeId>)>
  {
    if !IdsValid(collected, wellFormed) then Err(CollectionInvalid)
    else if !IdsValid(inner, wellFormed) then Err(InnerPartitionInvalid)
    else if !(SetOf(inner) <= SetOf(collected)) then Err(InnerNodeMissing)
    else
      var general := Only(collected, SetOf(inner), false);
      if general == [] || SetOf(general) * SetOf(inner) != {} || SetOf(general) + SetOf(inner) != SetOf(collected) ||
         |general| + |inner| != |collected|
      then Err(PartitionNotExact)
      else Ok((general, inner))
  }

  lemma {:induction false} OnlyMembers(xs: seq<NodeId>, s: set<NodeId>, inside: bool)
    ensures forall x :: x in Only(xs, s, inside) <==> x in xs && (x in s) == inside
  {
    if xs != [] {
      OnlyMembers(xs[..|xs| - 1], s, inside);
      assert xs == xs[..|xs| - 1] + [xs[|xs| - 1]];
    }
  }

  /** Members inside and outside a set together rearrange the list. */
  lemma {:induction false} OnlySplits(xs: seq<NodeId>, s: set<NodeId>)
    ensures multiset(Only(xs, s, true)) + multiset(Only(xs, s, false)) == multiset(xs)
    ensures |Only(xs, s, true)| + |Only(xs, s, false)| == |xs|
  {
    if xs != [] {
      OnlySplits(xs[..|xs| - 1], s);
      SplitLast(xs);
    }
  }

  lemma {:induction false} DistinctSize(xs: seq<NodeId>)
    requires Distinct(xs)
    ensures |SetOf(xs)| == |xs|
  {
    if xs == [] {
      assert SetOf(xs) == {};
    } else {
      var k := |xs| - 1;
      DistinctSize(xs[..k]);
      assert xs == xs[..k] + [xs[k]];
      assert SetOf(xs) == SetOf(xs[..k]) + {xs[k]};
      assert xs[k] !in SetOf(xs[..k]);
    }
  }

  lemma {:induction false} OnlyDistinct(xs: seq<NodeId>, s: set<NodeId>, inside: bool)
    requires Distinct(xs)
    ensures Distinct(Only(xs, s, inside))
  {
    if xs != [] {
      var k := |xs| - 1;
      OnlyDistinct(xs[..k], s, inside);
      OnlyMembers(xs[..k], s, inside);
      var earlier := Only(xs[..k], s, inside);
      forall i | 0 <= i < |earlier|
        ensures earlier[i] != xs[k]
      {
        assert earlier[i] in xs[..k];
      }
    }
  }

  /** The exactness check of the partition can fail for one reason only: every collected test is an inner one. */
  lemma PartitionExactness(collected: seq<NodeId>, inner: seq<NodeId>, wellFormed: NodeId -> bool)
    requires IdsValid(collected, wellFormed) && IdsValid(inner, wellFormed) && SetOf(inner) <= SetOf(collected)
    ensures Partition(collected, inner, wellFormed).Err? <==> SetOf(inner) == SetOf(collected)
  {
    hide Only, Distinct;
    var general := Only(collected, SetOf(inner), false);
    OnlyMembers(collected, SetOf(inner), false);
    OnlyDistinct(collected, SetOf(inner), false);
    assert SetOf(general) * SetOf(inner) == {};
    assert SetOf(general) + SetOf(inner) == SetOf(collected);
    DistinctSize(general);
    DistinctSize(inner);
    DistinctSize(collected);
    assert |SetOf(general) + SetOf(inner)| == |SetOf(general)| + |SetOf(inner)|;
    if general != [] {
      assert general[0] in SetOf(collected) && general[0] !in SetOf(inner);
    }
    assert general == [] ==> SetOf(general) == {};
  }

  /** A successful partition keeps the inner tests, and the general ones are all the others, each once. */
  lemma PartitionIs(collected: seq<NodeId>, inner: seq<NodeId>, wellFormed: NodeId -> bool)
    requires Partition(collected, inner, wellFormed).Ok?
    ensures var (general, kept) := Partition(collected, inner, wellFormed).value;
      kept == inner && general != [] && Distinct(general) && |general| + |inner| == |collected| &&
      (forall x :: x in inner ==> x in collected) &&
      forall x :: x in general <==> x in collected && x !in inner
  {
    OnlyMembers(collected, SetOf(inner), false);
    OnlyDistinct(collected, SetOf(inner), false);
    assert forall x :: x in inner ==> x in SetOf(inner);
  }

  // ----- the combination

  /** The verdict over two shards. */
  function Joined(g: Verdict, i: Verdict): Verdict {
    Verdict(g.failed + i.failed, g.passed + i.passed, g.skipped + i.skipped, Sort(g.skipIds + i.skipIds),
            g.total + i.total)
  }

  function Combine(collected: seq<NodeId>, general: seq<NodeId>, inner: seq<NodeId>, g: Verdict, i: Verdict)
    : Result<Verdict>
  {
    if SetOf(general) * SetOf(inner) != {} || SetOf(general) + SetOf(inner) != SetOf(collected) ||
       g.total != |general| || i.total != |inner|
    then Err(ShardCountMismatch)
    else
      var c := Joined(g, i);
      if c.total != |collected| || c.failed + c.passed + c.skipped != c.total then Err(ShardCountMismatch)
      else Ok(c)
  }

  const NO_COUNTS: Counts := Counts(Missing, Missing, Missing, Missing)

  /** One document holding both shards' elements. */
  function Merge(a: Element, b: Element): Element {
    Element(Testsuites, NO_COUNTS, None, [a, b])
  }

  lemma {:induction false} WithTagAppend(xs: seq<Element>, ys: seq<Element>, tag: Tag)
    ensures WithTag(xs + ys, tag) == WithTag(xs, tag) + WithTag(ys, tag)
  {
    if ys == [] {
      assert xs + ys == xs;
    } else {
      WithTagAppend(xs, ys[..|ys| - 1], tag);
      assert (xs + ys)[..|xs + ys| - 1] == xs + ys[..|ys| - 1];
    }
  }

  lemma WithTagOne(e: Element, tag: Tag)
    ensures WithTag([e], tag) == if e.tag == tag then [e] else []
  {
    assert [e][..0] == [];
  }

  lemma MergedElements(a: Element, b: Element)
    ensures IterAll([a, b]) == Iter(a) + Iter(b)
  {
    hide Iter;
    assert [a, b][1..] == [b] && [b][1..] == [];
    assert IterAll([b]) == Iter(b) + IterAll([]);
    assert Iter(b) + [] == Iter(b);
  }

  lemma MergedCases(a: Element, b: Element)
    ensures CasesOf(Merge(a, b)) == CasesOf(a) + CasesOf(b)
  {
    hide WithTag;
    var m := Merge(a, b);
    MergedElements(a, b);
    assert Iter(m) == [m] + IterAll([a, b]);
    WithTagAppend([m], IterAll([a, b]), Testcase);
    WithTagOne(m, Testcase);
    WithTagAppend(Iter(a), Iter(b), Testcase);
  }

  lemma SuitesBelow(a: Element)
    ensures WithTag(Iter(a), Testsuite)
         == (if a.tag == Testsuite then [a] else []) + WithTag(IterAll(a.children), Testsuite)
  {
    hide WithTag;
    WithTagAppend([a], IterAll(a.children), Testsuite);
    WithTagOne(a, Testsuite);
  }

  lemma {:induction false} CountAppend(xs: seq<Element>, ys: seq<Element>, outcome: Tag)
    ensures CountOf(xs + ys, outcome) == CountOf(xs, outcome) + CountOf(ys, outcome)
  {
    hide Has;
    if ys == [] {
      assert xs + ys == xs;
    } else {
      CountAppend(xs, ys[..|ys| - 1], outcome);
      assert (xs + ys)[..|xs + ys| - 1] == xs + ys[..|ys| - 1];
    }
  }

  lemma {:induction false} SkippedAppend(xs: seq<Element>, ys: seq<Element>)
    ensures SkippedIds(xs + ys) == SkippedIds(xs) + SkippedIds(ys)
  {
    hide Has;
    if ys == [] {
      assert xs + ys == xs;
    } else {
      SkippedAppend(xs, ys[..|ys| - 1]);
      assert (xs + ys)[..|xs + ys| - 1] == xs + ys[..|ys| - 1];
    }
  }

  lemma {:induction false} CasesFine(cases: seq<Element>)
    ensures FirstCaseError(cases) == None <==> forall c :: c in cases ==> CaseError(c) == None
  {
    hide CaseError;
    if cases != [] {
      CasesFine(cases[..|cases| - 1]);
      assert cases == cases[..|cases| - 1] + [cases[|cases| - 1]];
    }
  }

  lemma {:induction false} ContainersFine(containers: seq<Element>)
    ensures FirstContainerError(containers) == None <==> forall c :: c in containers ==> ContainerError(c) == None
  {
    hide ContainerError;
    if containers != [] {
      ContainersFine(containers[..|containers| - 1]);
      assert containers == containers[..|containers| - 1] + [containers[|containers| - 1]];
    }
  }

  lemma MergedContainers(a: Element, b: Element)
    requires FirstContainerError(ContainersOf(a)) == None && FirstContainerError(ContainersOf(b)) == None
    ensures FirstContainerError(ContainersOf(Merge(a, b))) == None
  {
    hide WithTag, ContainerError, FirstContainerError;
    var m := Merge(a, b);
    ContainersFine(ContainersOf(a));
    ContainersFine(ContainersOf(b));
    ContainersFine(ContainersOf(m));
    MergedElements(a, b);
    WithTagAppend(Iter(a), Iter(b), Testsuite);
    SuitesBelow(a);
    SuitesBelow(b);
    UndeclaredFine(m);
    forall c | c in ContainersOf(m)
      ensures ContainerError(c) == None
    {
      assert c == m || c in ContainersOf(a) || c in ContainersOf(b);
    }
  }

  lemma UndeclaredFine(c: Element)
    requires c.declared == NO_COUNTS
    ensures ContainerError(c) == None
  {
  }

  lemma ValidateFacts(root: Element, exit: int, expectedSkips: seq<NodeId>)
    ensures var r := Validate(Ok(root), exit, expectedSkips);
      var cases := CasesOf(root);
      r.Ok? <==>
        exit == 0 && (root.tag.Testsuite? || root.tag.Testsuites?) && cases != [] && FirstCaseError(cases) == None &&
        FirstContainerError(ContainersOf(root)) == None && multiset(SkippedIds(cases)) == multiset(expectedSkips) &&
        CountOf(cases, FailureTag) == 0 && CountOf(cases, ErrorTag) == 0
    ensures var r := Validate(Ok(root), exit, expectedSkips);
      var cases := CasesOf(root);
      r.Ok? ==> r.value == Verdict(0, |cases| - |SkippedIds(cases)|, |SkippedIds(cases)|, Sort(SkippedIds(cases)),
          |cases|)
  {
    hide CasesOf, ContainersOf, Sort, FirstCaseError, FirstContainerError, CountOf, SkippedIds;
    SortAgrees(SkippedIds(CasesOf(root)), expectedSkips);
  }

  /** Splitting the declared skips over the shards loses none and duplicates none. */
  lemma SkipsSplit(expected: seq<NodeId>, general: seq<NodeId>, inner: seq<NodeId>, collected: seq<NodeId>)
    requires SetOf(general) * SetOf(inner) == {} && SetOf(general) + SetOf(inner) == SetOf(collected)
    requires SetOf(expected) <= SetOf(collected)
    ensures multiset(Only(expected, SetOf(general), true)) + multiset(Only(expected, SetOf(inner), true))
         == multiset(expected)
  {
    OnlySplits(expected, SetOf(inner));
    forall x | x in expected
      ensures x in SetOf(general) || x in SetOf(inner)
    {
      assert x in SetOf(expected);
      assert x in SetOf(general) + SetOf(inner);
    }
    SameSplit(expected, SetOf(general), SetOf(inner));
  }

  lemma {:induction false} SameSplit(xs: seq<NodeId>, a: set<NodeId>, b: set<NodeId>)
    requires a * b == {} && forall x :: x in xs ==> x in a || x in b
    ensures Only(xs, a, true) == Only(xs, b, false)
  {
    if xs != [] {
      SameSplit(xs[..|xs| - 1], a, b);
      var x := xs[|xs| - 1];
      assert x in a ==> x !in b by {
        assert x in a * b <==> x in a && x in b;
      }
    }
  }

  // ----- one document with the same test cases

  lemma CountWithout(ys: seq<Element>, k: nat, outcome: Tag)
    requires k < |ys|
    ensures CountOf(ys, outcome) == CountOf(ys[..k] + ys[k + 1..], outcome) + CountOf([ys[k]], outcome)
    ensures multiset(SkippedIds(ys)) == multiset(SkippedIds(ys[..k] + ys[k + 1..])) + multiset(SkippedIds([ys[k]]))
  {
    hide Has, CountOf, SkippedIds;
    var a, x, b := ys[..k], [ys[k]], ys[k + 1..];
    assert ys == a + (x + b);
    CountAppend(a, x + b, outcome);
    CountAppend(x, b, outcome);
    CountAppend(a, b, outcome);
    SkippedAppend(a, x + b);
    SkippedAppend(x, b);
    SkippedAppend(a, b);
  }

  /** Rearranging test cases changes neither the counts nor the skips. */
  lemma {:induction false} CasesPermute(xs: seq<Element>, ys: seq<Element>, outcome: Tag)
    requires multiset(xs) == multiset(ys)
    ensures CountOf(xs, outcome) == CountOf(ys, outcome)
    ensures multiset(SkippedIds(xs)) == multiset(SkippedIds(ys))
  {
    hide Has, CountOf, SkippedIds;
    assert |multiset(xs)| == |multiset(ys)|;
    if xs != [] {
      var n := |xs| - 1;
      SplitLast(xs);
      assert xs[n] in multiset(ys);
      var k :| 0 <= k < |ys| && ys[k] == xs[n];
      RemoveOne(xs, ys, k);
      CasesPermute(xs[..n], ys[..k] + ys[k + 1..], outcome);
      assert xs[..n] + xs[n + 1..] == xs[..n];
      CountWithout(xs, n, outcome);
      CountWithout(ys, k, outcome);
    }
  }

  /** A suite document with exactly the test cases of both, in any order and nesting. */
  predicate HoldsBoth(c: Element, a: Element, b: Element) {
    (c.tag.Testsuite? || c.tag.Testsuites?) && multiset(CasesOf(c)) == multiset(CasesOf(a) + CasesOf(b))
  }

  /** Wrapping both documents in one root is such a document, and every count it declares is right. */
  lemma MergeHoldsBoth(a: Element, b: Element)
    requires FirstContainerError(ContainersOf(a)) == None && FirstContainerError(ContainersOf(b)) == None
    ensures HoldsBoth(Merge(a, b), a, b) && FirstContainerError(ContainersOf(Merge(a, b))) == None
  {
    hide CasesOf, ContainersOf, FirstContainerError;
    MergedCases(a, b);
    MergedContainers(a, b);
  }

  /**
   Sharding preserves the verdict. Take an exact partition, skips that were all collected, and two
   documents that validate against their shares of the skips. The combination succeeds exactly when
   each document has as many tests as its shard. Then any one document that holds the test cases of
   both is validated against the full skip list with exactly the combined verdict, in which nothing
   failed, unless a count it declares itself is wrong, which is then the error.
   */
  lemma ShardingPreservesVerdict(a: Element, b: Element, c: Element, collected: seq<NodeId>, inner: seq<NodeId>,
                                 expected: seq<NodeId>, wellFormed: NodeId -> bool)
    requires Partition(collected, inner, wellFormed).Ok? && SetOf(expected) <= SetOf(collected)
    requires var general := Partition(collected, inner, wellFormed).value.0;
      Validate(Ok(a), 0, Only(expected, SetOf(general), true)).Ok? &&
      Validate(Ok(b), 0, Only(expected, SetOf(inner), true)).Ok?
    requires HoldsBoth(c, a, b)
    ensures var general := Partition(collected, inner, wellFormed).value.0;
      var ga := Validate(Ok(a), 0, Only(expected, SetOf(general), true)).value;
      var gb := Validate(Ok(b), 0, Only(expected, SetOf(inner), true)).value;
      var r, declared := Combine(collected, general, inner, ga, gb), FirstContainerError(ContainersOf(c));
      (r.Ok? <==> ga.total == |general| && gb.total == |inner|) &&
      (r.Ok? ==> Validate(Ok(c), 0, expected) == (if declared.Some? then Err(declared.value) else r) &&
                 r.value.failed == 0 && r.value.passed + r.value.skipped == r.value.total == |collected| &&
                 r.value.skipIds == Sort(expected))
  {
    hide Validate, Sort, Only, IdsValid, CasesOf, ContainersOf, FirstCaseError, FirstContainerError, CountOf,
         SkippedIds, SetOf, HoldsBoth;
    var general := Partition(collected, inner, wellFormed).value.0;
    var skipsA, skipsB := Only(expected, SetOf(general), true), Only(expected, SetOf(inner), true);
    SkipsSplit(expected, general, inner, collected);
    ValidateFacts(a, 0, skipsA);
    ValidateFacts(b, 0, skipsB);
    JoinedVerdict(a, b, c, skipsA, skipsB, expected);
  }

  lemma JoinedVerdict(a: Element, b: Element, c: Element, skipsA: seq<NodeId>, skipsB: seq<NodeId>,
                      expected: seq<NodeId>)
    requires Validate(Ok(a), 0, skipsA).Ok? && Validate(Ok(b), 0, skipsB).Ok? && HoldsBoth(c, a, b)
    requires multiset(skipsA) + multiset(skipsB) == multiset(expected)
    ensures var va, vb := Validate(Ok(a), 0, skipsA).value, Validate(Ok(b), 0, skipsB).value;
      var declared := FirstContainerError(ContainersOf(c));
      Validate(Ok(c), 0, expected) == (if declared.Some? then Err(declared.value) else Ok(Joined(va, vb))) &&
      Joined(va, vb).skipIds == Sort(expected)
  {
    hide Sort, CasesOf, ContainersOf, FirstCaseError, FirstContainerError, CountOf, SkippedIds, Validate;
    var ca, cb, cc := CasesOf(a), CasesOf(b), CasesOf(c);
    ValidateFacts(a, 0, skipsA);
    ValidateFacts(b, 0, skipsB);
    ValidateFacts(c, 0, expected);
    JoinedCases(ca, cb, cc);
    CasesPermute(cc, ca + cb, SkippedTag);
    SkippedAppend(ca, cb);
    assert |cc| == |multiset(cc)| == |ca + cb|;
    assert |SkippedIds(cc)| == |multiset(SkippedIds(cc))| == |SkippedIds(ca + cb)|;
    SortAgrees(SkippedIds(cc), Sort(SkippedIds(ca)) + Sort(SkippedIds(cb)));
    SortAgrees(SkippedIds(cc), expected);
    if FirstContainerError(ContainersOf(c)).Some? {
      ContainerErrorShown(c, expected);
    }
  }

  lemma JoinedCases(ca: seq<Element>, cb: seq<Element>, cc: seq<Element>)
    requires multiset(cc) == multiset(ca + cb) && FirstCaseError(ca) == None && FirstCaseError(cb) == None
    requires CountOf(ca, FailureTag) == CountOf(ca, ErrorTag) == CountOf(cb, FailureTag) == CountOf(cb, ErrorTag) == 0
    ensures FirstCaseError(cc) == None && CountOf(cc, FailureTag) == CountOf(cc, ErrorTag) == 0
  {
    hide FirstCaseError, CountOf, CaseError;
    CasesFine(ca);
    CasesFine(cb);
    CasesFine(cc);
    forall x | x in cc
      ensures x in ca || x in cb
    {
      assert x in multiset(ca + cb);
    }
    CasesPermute(cc, ca + cb, FailureTag);
    CasesPermute(cc, ca + cb, ErrorTag);
    CountAppend(ca, cb, FailureTag);
    CountAppend(ca, cb, ErrorTag);
  }

  lemma ContainerErrorShown(c: Element, expected: seq<NodeId>)
    requires (c.tag.Testsuite? || c.tag.Testsuites?) && CasesOf(c) != [] && FirstCaseError(CasesOf(c)) == None
    requires FirstContainerError(ContainersOf(c)).Some?
    ensures Validate(Ok(c), 0, expected) == Err(FirstContainerError(ContainersOf(c)).value)
  {
    hide CasesOf, ContainersOf, FirstCaseError, FirstContainerError;
  }

  // ----- what a valid document is, from its elements alone

  /** The element itself or one below it. */
  ghost predicate Within(e: Element, root: Element)
    decreases root, 1
  {
    e == root || WithinAny(e, root.children)
  }

  ghost predicate WithinAny(e: Element, es: seq<Element>)
    decreases es, 0
  {
    exists i :: 0 <= i < |es| && Within(e, es[i])
  }

  lemma {:induction false} IterIsWithin(root: Element, e: Element)
    ensures e in Iter(root) <==> Within(e, root)
    decreases root, 1
  {
    IterAllIsWithin(root.children, e);
  }

  lemma {:induction false} IterAllIsWithin(es: seq<Element>, e: Element)
    ensures e in IterAll(es) <==> WithinAny(e, es)
    decreases es, 0
  {
    if es != [] {
      IterIsWithin(es[0], e);
      IterAllIsWithin(es[1..], e);
      assert WithinAny(e, es) <==> Within(e, es[0]) || WithinAny(e, es[1..]) by {
        if WithinAny(e, es) {
          var i :| 0 <= i < |es| && Within(e, es[i]);
          assert i > 0 ==> es[i] == es[1..][i - 1];
        }
        if WithinAny(e, es[1..]) {
          var i :| 0 <= i < |es[1..]| && Within(e, es[1..][i]);
          assert es[1..][i] == es[i + 1];
        }
      }
    }
  }

  lemma {:induction false} WithTagIs(es: seq<Element>, tag: Tag, e: Element)
    ensures e in WithTag(es, tag) <==> e in es && e.tag == tag
  {
    if es != [] {
      WithTagIs(es[..|es| - 1], tag, e);
      assert es == es[..|es| - 1] + [es[|es| - 1]];
    }
  }

  /** The test cases of a document are its elements of that tag. */
  lemma CasesAre(root: Element, c: Element)
    ensures c in CasesOf(root) <==> Within(c, root) && c.tag == Testcase
  {
    hide Within;
    IterIsWithin(root, c);
    WithTagIs(Iter(root), Testcase, c);
  }

  predicate HasChild(c: Element, tag: Tag) {
    exists i :: 0 <= i < |c.children| && c.children[i].tag == tag
  }

  lemma {:induction false} OutcomesAre(children: seq<Element>, tag: Tag)
    requires tag == ErrorTag || tag == FailureTag || tag == SkippedTag
    ensures tag in Outcomes(children) <==> exists i :: 0 <= i < |children| && children[i].tag == tag
  {
    if children != [] {
      var k := |children| - 1;
      OutcomesAre(children[..k], tag);
      assert forall i :: 0 <= i < k ==> children[..k][i] == children[i];
      if tag in Outcomes(children) && children[k].tag != tag {
        var i :| 0 <= i < k && children[..k][i].tag == tag;
        assert children[i].tag == tag;
      }
    }
  }

  lemma HasIs(c: Element, tag: Tag)
    requires tag == ErrorTag || tag == FailureTag || tag == SkippedTag
    ensures Has(c, tag) <==> HasChild(c, tag)
  {
    OutcomesAre(c.children, tag);
  }

  lemma {:induction false} CountZero(cases: seq<Element>, outcome: Tag)
    ensures CountOf(cases, outcome) == 0 <==> forall c :: c in cases ==> !Has(c, outcome)
  {
    hide Has;
    if cases != [] {
      CountZero(cases[..|cases| - 1], outcome);
      assert cases == cases[..|cases| - 1] + [cases[|cases| - 1]];
    }
  }

  lemma {:induction false} SkippedIdsAre(cases: seq<Element>, id: NodeId)
    ensures id in SkippedIds(cases) <==> exists i :: 0 <= i < |cases| && Skips(cases[i], id)
  {
    hide HasChild, Has;
    if cases != [] {
      var k := |cases| - 1;
      SkippedIdsAre(cases[..k], id);
      HasIs(cases[k], SkippedTag);
      assert forall i :: 0 <= i < k ==> cases[..k][i] == cases[i];
      if id in SkippedIds(cases) && !Skips(cases[k], id) {
        var i :| 0 <= i < k && Skips(cases[..k][i], id);
        assert Skips(cases[i], id);
      }
    }
  }

  predicate Skips(c: Element, id: NodeId) {
    HasChild(c, SkippedTag) && c.identity == Some(id)
  }

  /**
   A document that validates has a test case, none with an error or a failure below it, and the tests
   skipped in it are the expected ones; every case is counted as passed or skipped.
   */
  lemma ValidDocument(root: Element, exit: int, expected: seq<NodeId>)
    requires Validate(Ok(root), exit, expected).Ok?
    ensures exit == 0 && (root.tag == Testsuite || root.tag == Testsuites)
    ensures exists c :: Within(c, root) && c.tag == Testcase
    ensures forall c :: Within(c, root) && c.tag == Testcase ==>
      !HasChild(c, ErrorTag) && !HasChild(c, FailureTag) && (HasChild(c, SkippedTag) ==> c.identity.Some?)
    ensures forall id :: id in expected <==> exists c :: Within(c, root) && c.tag == Testcase && Skips(c, id)
    ensures var v := Validate(Ok(root), exit, expected).value;
      v.failed == 0 && v.skipped == |expected| && v.passed == v.total - |expected| && v.total == |CasesOf(root)|
  {
    hide CasesOf, ContainersOf, FirstCaseError, FirstContainerError, CountOf, SkippedIds, Validate, Within, HasChild,
         CaseError, Has;
    ValidateFacts(root, exit, expected);
    var cases := CasesOf(root);
    CasesFine(cases);
    CountZero(cases, ErrorTag);
    CountZero(cases, FailureTag);
    CasesAre(root, cases[0]);
    forall c | Within(c, root) && c.tag == Testcase
      ensures !HasChild(c, ErrorTag) && !HasChild(c, FailureTag) && (HasChild(c, SkippedTag) ==> c.identity.Some?)
    {
      CasesAre(root, c);
      HasIs(c, ErrorTag);
      HasIs(c, FailureTag);
      HasIs(c, SkippedTag);
      FineCase(c);
    }
    forall id
      ensures id in expected <==> exists c :: Within(c, root) && c.tag == Testcase && Skips(c, id)
    {
      SkippedHere(root, id);
      assert id in multiset(SkippedIds(cases)) <==> id in multiset(expected);
    }
    assert |multiset(SkippedIds(cases))| == |multiset(expected)|;
  }

  lemma SkippedHere(root: Element, id: NodeId)
    ensures id in SkippedIds(CasesOf(root)) <==> exists c :: Within(c, root) && c.tag == Testcase && Skips(c, id)
  {
    hide CasesOf, SkippedIds, Within, Skips;
    var cases := CasesOf(root);
    SkippedIdsAre(cases, id);
    if i :| 0 <= i < |cases| && Skips(cases[i], id) {
      CasesAre(root, cases[i]);
    }
    if c :| Within(c, root) && c.tag == Testcase && Skips(c, id) {
      CasesAre(root, c);
      var i :| 0 <= i < |cases| && cases[i] == c;
    }
  }

  /** A case without error has one outcome at most, an identity if skipped, and no wrong count of its own. */
  lemma FineCase(c: Element)
    requires CaseError(c) == None
    ensures |Outcomes(c.children)| <= 1 && (Has(c, SkippedTag) ==> c.identity.Some?)
    ensures c.declared.errors == Missing || c.declared.errors == Number(if Has(c, ErrorTag) then 1 else 0)
    ensures c.declared.failures == Missing || c.declared.failures == Number(if Has(c, FailureTag) then 1 else 0)
    ensures c.declared.skipped == Missing || c.declared.skipped == Number(if Has(c, SkippedTag) then 1 else 0)
  {
    hide Has;
  }

  /** In a valid document every count that a suite declares is right: no error, no failure, its skips and its cases. */
  lemma DeclaredCountsRight(root: Element, exit: int, expected: seq<NodeId>, suite: Element)
    requires Validate(Ok(root), exit, expected).Ok? && Within(suite, root) && (suite == root || suite.tag == Testsuite)
    ensures suite.declared.errors == Missing || suite.declared.errors == Number(0)
    ensures suite.declared.failures == Missing || suite.declared.failures == Number(0)
    ensures suite.declared.skipped == Missing || suite.declared.skipped == Number(CountOf(CasesOf(suite), SkippedTag))
    ensures suite.declared.tests == Missing || suite.declared.tests == Number(|CasesOf(suite)|)
  {
    hide CasesOf, FirstCaseError, FirstContainerError, CountOf, SkippedIds, Validate, Within, CaseError, Has;
    ValidateFacts(root, exit, expected);
    ContainersFine(ContainersOf(root));
    SuiteListed(root, suite);
    CountZero(CasesOf(root), ErrorTag);
    CountZero(CasesOf(root), FailureTag);
    forall c | c in CasesOf(suite)
      ensures c in CasesOf(root)
    {
      CasesAre(suite, c);
      CasesAre(root, c);
      WithinTransitive(c, suite, root);
    }
    CountZero(CasesOf(suite), ErrorTag);
    CountZero(CasesOf(suite), FailureTag);
  }

  lemma SuiteListed(root: Element, suite: Element)
    requires Within(suite, root) && (suite == root || suite.tag == Testsuite)
    ensures suite in ContainersOf(root)
  {
    hide Within, WithTag;
    IterIsWithin(root, suite);
    WithTagIs(IterAll(root.children), Testsuite, suite);
  }

  lemma {:induction false} WithinTransitive(a: Element, b: Element, c: Element)
    requires Within(a, b) && Within(b, c)
    ensures Within(a, c)
    decreases c
  {
    if b != c {
      var i :| 0 <= i < |c.children| && Within(b, c.children[i]);
      WithinTransitive(a, b, c.children[i]);
    }
  }
}
