/** Queries on a parsed code graph: the two-hop impact of changing a symbol with its risk
    level, and greedy context selection under a token budget. */
module CodeGraphs {
  import opened Sequences
  import opened StableSort
  import opened Wrappers

  datatype Visibility = Public | Private | Protected

  datatype CodeSymbol = CodeSymbol(
    name: string, file: string, line: nat, visibility: Visibility, signature: Option<string>)

  datatype Dependency = Dependency(fromFile: string, toModule: string, importedSymbols: seq<string>, line: nat)

  datatype CallRef = CallRef(caller: string, callee: string, file: string, line: nat)

  datatype CodeGraph = CodeGraph(symbols: seq<CodeSymbol>, dependencies: seq<Dependency>, calls: seq<CallRef>)

  datatype RiskLevel = Low | Medium | High | Critical

  // ---- Names ----

  /** The text after the last "::" that starts at or before position `i`, or all of it. */
  function SegmentFrom(s: string, i: nat): string
    requires i + 2 <= |s|
  {
    if s[i] == ':' && s[i + 1] == ':' then s[i + 2..]
    else if i == 0 then s
    else SegmentFrom(s, i - 1)
  }

  /** The function part of a qualified caller. */
  function FunctionName(caller: string): string {
    if |caller| < 2 then caller else SegmentFrom(caller, |caller| - 2)
  }

  lemma {:induction false} SegmentSkips(s: string, i: nat, k: nat)
    requires k <= i && i + 2 <= |s| && s[k] == ':' && s[k + 1] == ':'
    requires forall j :: k + 2 <= j < |s| ==> s[j] != ':'
    ensures SegmentFrom(s, i) == s[k + 2..]
  {
    if i > k { SegmentSkips(s, i - 1, k); }
  }

  /** A caller written `file::name` yields `name`, for any name without a colon. */
  lemma CallerNames(file: string, name: string)
    requires ':' !in name
    ensures FunctionName(file + "::" + name) == name
  {
    var s := file + "::" + name;
    SegmentSkips(s, |s| - 2, |file|);
    assert s[|file| + 2..] == name;
  }

  /** A "::" starts at position `k`. */
  ghost predicate SeparatorAt(s: string, k: nat) {
    k + 2 <= |s| && s[k..k + 2] == "::"
  }

  /** `name` is what follows the last "::" that starts at or before position `i`, or all of `s`. */
  ghost predicate LastSegment(s: string, i: nat, name: string) {
    || (exists k: nat :: k <= i && SeparatorAt(s, k) && name == s[k + 2..] && forall j: nat :: k < j <= i ==> !SeparatorAt(s, j))
    || (name == s && forall j: nat :: j <= i ==> !SeparatorAt(s, j))
  }

  lemma {:induction false} SegmentIsLast(s: string, i: nat)
    requires i + 2 <= |s|
    ensures LastSegment(s, i, SegmentFrom(s, i))
  {
    assert s[i..i + 2] == [s[i], s[i + 1]];
    if SeparatorAt(s, i) {
      assert s[i + 2..] == SegmentFrom(s, i);
    } else if i > 0 {
      SegmentIsLast(s, i - 1);
    }
  }

  /** For any caller, the function part is what follows the last "::", or all of it. */
  lemma FunctionNameIsLastSegment(caller: string)
    ensures LastSegment(caller, |caller|, FunctionName(caller))
  {
    if |caller| >= 2 { SegmentIsLast(caller, |caller| - 2); }
  }

  // ---- Impact analysis ----

  /** Calls to `symbol`, in order. */
  function FindReferences(calls: seq<CallRef>, symbol: string): seq<CallRef> {
    if calls == [] then []
    else
      var n := |calls| - 1;
      FindReferences(calls[..n], symbol) + if calls[n].callee == symbol then [calls[n]] else []
  }

  predicate EndsWith(s: string, suffix: string) {
    |suffix| <= |s| && s[|s| - |suffix|..] == suffix
  }

  predicate Imports(d: Dependency, symbol: string) {
    symbol in d.importedSymbols || EndsWith(d.toModule, symbol)
  }

  function Callers(refs: seq<CallRef>): seq<string> {
    seq(|refs|, i requires 0 <= i < |refs| => refs[i].caller)
  }

  /** `c` calls the function named by `d`. */
  ghost predicate Calls(calls: seq<CallRef>, c: string, name: string) {
    exists i :: 0 <= i < |calls| && calls[i].caller == c && calls[i].callee == name
  }

  /** `c` calls a caller of `symbol`. */
  ghost predicate TwoHops(calls: seq<CallRef>, symbol: string, c: string) {
    exists d :: Calls(calls, d, symbol) && Calls(calls, c, FunctionName(d))
  }

  predicate IsPublic(symbols: seq<CodeSymbol>, symbol: string) {
    exists s :: s in symbols && s.name == symbol && s.visibility == Public
  }

  function Risk(affected: nat, isPublic: bool): RiskLevel {
    if affected > 10 || (isPublic && affected > 5) then Critical
    else if affected > 5 || (isPublic && affected > 2) then High
    else if affected > 2 || isPublic then Medium
    else Low
  }

  function Severity(r: RiskLevel): nat {
    match r
    case Low => 0
    case Medium => 1
    case High => 2
    case Critical => 3
  }

  datatype ImpactAnalysis = ImpactAnalysis(
    targetSymbol: string,
    directlyAffected: seq<string>,
    transitivelyAffected: seq<string>,
    affectedFiles: set<string>,
    affectedTests: seq<string>,
    riskLevel: RiskLevel)

  /** The direct list has one entry per call; direct and transitive callers together are
      exactly the callers within two hops, without overlap, the transitive ones once each. */
  ghost predicate ImpactOf(g: CodeGraph, symbol: string, r: ImpactAnalysis) {
    && r.targetSymbol == symbol
    && r.directlyAffected == Callers(FindReferences(g.calls, symbol))
    && NoRepeat(r.transitivelyAffected)
    && (forall c :: c in r.directlyAffected <==> Calls(g.calls, c, symbol))
    && (forall c :: c in r.transitivelyAffected <==> TwoHops(g.calls, symbol, c) && !Calls(g.calls, c, symbol))
    && r.riskLevel == Risk(|r.directlyAffected| + |r.transitivelyAffected|, IsPublic(g.symbols, symbol))
  }

  /** The risk grows with the number of affected callers, and faster for a public symbol. */
  ghost predicate RiskFits(symbols: seq<CodeSymbol>, symbol: string, affected: nat, risk: RiskLevel) {
    var isPublic := exists i :: 0 <= i < |symbols| && symbols[i].name == symbol && symbols[i].visibility == Public;
    && (risk == Critical <==> affected > 10 || (isPublic && affected > 5))
    && (risk == Critical || risk == High <==> affected > 5 || (isPublic && affected > 2))
    && (risk != Low <==> affected > 2 || isPublic)
  }

  /** Every call to the symbol counts its caller once. */
  ghost predicate CountsCalls(calls: seq<CallRef>, symbol: string, direct: seq<string>) {
    forall c :: multiset(direct)[c] == |set i: nat | i < |calls| && calls[i].caller == c && calls[i].callee == symbol|
  }

  /** The dependency names the symbol, or its module's name ends with it. */
  ghost predicate BringsIn(d: Dependency, symbol: string) {
    || (exists i :: 0 <= i < |d.importedSymbols| && d.importedSymbols[i] == symbol)
    || (exists prefix: string :: d.toModule == prefix + symbol)
  }

  ghost predicate IsAffectedFile(g: CodeGraph, symbol: string, r: ImpactAnalysis, f: string) {
    || (exists i :: 0 <= i < |g.calls| && g.calls[i].file == f && g.calls[i].callee == symbol)
    || (exists i :: 0 <= i < |g.dependencies| && g.dependencies[i].fromFile == f && BringsIn(g.dependencies[i], symbol))
    || (exists k: nat, i: nat :: i < |g.calls| && FirstReach(g.calls, r.directlyAffected, k, i, g.calls[i].caller)
                                 && g.calls[i].file == f && g.calls[i].caller in r.transitivelyAffected)
  }

  /** Each test symbol in an affected file is listed once. */
  ghost predicate ListsTests(symbols: seq<CodeSymbol>, files: set<string>, tests: seq<string>) {
    forall name :: multiset(tests)[name] ==
      |set i: nat | i < |symbols| && symbols[i].name == name && "test_" <= name && symbols[i].file in files|
  }

  lemma {:induction false} ReferencesCount(calls: seq<CallRef>, symbol: string, c: string)
    ensures multiset(Callers(FindReferences(calls, symbol)))[c]
            == |Where(calls, (call: CallRef) => call.caller == c && call.callee == symbol)|
  {
    if calls != [] {
      var n := |calls| - 1;
      ReferencesCount(calls[..n], symbol, c);
      WhereNext(calls, (call: CallRef) => call.caller == c && call.callee == symbol);
      var before := FindReferences(calls[..n], symbol);
      if calls[n].callee == symbol {
        assert Callers(before + [calls[n]]) == Callers(before) + [calls[n].caller];
      } else {
        assert FindReferences(calls, symbol) == before;
      }
    }
  }

  lemma DirectCountsCalls(calls: seq<CallRef>, symbol: string)
    ensures CountsCalls(calls, symbol, Callers(FindReferences(calls, symbol)))
  {
    forall c ensures multiset(Callers(FindReferences(calls, symbol)))[c]
                     == |set i: nat | i < |calls| && calls[i].caller == c && calls[i].callee == symbol|
    {
      ReferencesCount(calls, symbol, c);
      assert Where(calls, (call: CallRef) => call.caller == c && call.callee == symbol)
          == set i: nat | i < |calls| && calls[i].caller == c && calls[i].callee == symbol;
    }
  }

  lemma {:induction false} TestsCount(symbols: seq<CodeSymbol>, files: set<string>, name: string)
    ensures multiset(AffectedTests(symbols, files))[name]
            == |Where(symbols, (s: CodeSymbol) => s.name == name && "test_" <= name && s.file in files)|
  {
    if symbols != [] {
      TestsCount(symbols[..|symbols| - 1], files, name);
      WhereNext(symbols, (s: CodeSymbol) => s.name == name && "test_" <= name && s.file in files);
    }
  }

  /** Affected tests are listed in the order of the symbols. */
  lemma {:induction false} TestsAppend(a: seq<CodeSymbol>, b: seq<CodeSymbol>, files: set<string>)
    ensures AffectedTests(a + b, files) == AffectedTests(a, files) + AffectedTests(b, files)
  {
    if b == [] {
      assert a + b == a;
    } else {
      var n := |b| - 1;
      assert (a + b)[..|a| + n] == a + b[..n];
      TestsAppend(a, b[..n], files);
    }
  }

  lemma TestsAreListed(symbols: seq<CodeSymbol>, files: set<string>)
    ensures ListsTests(symbols, files, AffectedTests(symbols, files))
  {
    forall name ensures multiset(AffectedTests(symbols, files))[name]
      == |set i: nat | i < |symbols| && symbols[i].name == name && "test_" <= name && symbols[i].file in files|
    {
      TestsCount(symbols, files, name);
      assert Where(symbols, (s: CodeSymbol) => s.name == name && "test_" <= name && s.file in files)
          == set i: nat | i < |symbols| && symbols[i].name == name && "test_" <= name && symbols[i].file in files;
    }
  }

  lemma RiskIsFitting(symbols: seq<CodeSymbol>, symbol: string, affected: nat)
    ensures RiskFits(symbols, symbol, affected, Risk(affected, IsPublic(symbols, symbol)))
  {
    assert IsPublic(symbols, symbol) ==> exists i :: 0 <= i < |symbols| && symbols[i].name == symbol && symbols[i].visibility == Public;
  }

  lemma ImportsBringsIn(d: Dependency, symbol: string)
    ensures Imports(d, symbol) <==> BringsIn(d, symbol)
  {
    if EndsWith(d.toModule, symbol) {
      assert d.toModule == d.toModule[..|d.toModule| - |symbol|] + symbol;
    }
    if exists prefix: string :: d.toModule == prefix + symbol {
      var prefix: string :| d.toModule == prefix + symbol;
      assert d.toModule[|prefix|..] == symbol;
    }
  }

  lemma FilesAreAffected(g: CodeGraph, symbol: string, r: ImpactAnalysis, f: string)
    requires FilesOf(g, symbol, r)
    ensures f in r.affectedFiles <==> IsAffectedFile(g, symbol, r, f)
  {
    forall d { ImportsBringsIn(d, symbol); }
  }

  /** The affected files are those of the calls to the symbol, of its importers, and for each
      transitive caller that of the first call by which it reaches a direct caller. */
  ghost predicate FilesOf(g: CodeGraph, symbol: string, r: ImpactAnalysis) {
    r.affectedFiles == ReferenceFiles(g.calls, symbol) + ImporterFiles(g.dependencies, symbol)
                       + FirstFiles(g.calls, r.directlyAffected, r.transitivelyAffected)
  }

  lemma {:induction false} ReferencesAreCalls(calls: seq<CallRef>, symbol: string, r: CallRef)
    ensures r in FindReferences(calls, symbol) <==> r in calls && r.callee == symbol
  {
    if calls != [] {
      ReferencesAreCalls(calls[..|calls| - 1], symbol, r);
    }
  }

  lemma DirectAreCallers(calls: seq<CallRef>, symbol: string, c: string)
    ensures c in Callers(FindReferences(calls, symbol)) <==> Calls(calls, c, symbol)
  {
    var refs := FindReferences(calls, symbol);
    if c in Callers(refs) {
      var i :| 0 <= i < |refs| && refs[i].caller == c;
      ReferencesAreCalls(calls, symbol, refs[i]);
      assert refs[i] in refs;
    }
    if Calls(calls, c, symbol) {
      var i :| 0 <= i < |calls| && calls[i].caller == c && calls[i].callee == symbol;
      ReferencesAreCalls(calls, symbol, calls[i]);
      var j :| 0 <= j < |refs| && refs[j] == calls[i];
      assert Callers(refs)[j] == c;
    }
  }

  /** The callers of the first `n` direct callers, up to call `m` of the next one. */
  ghost predicate Reached(calls: seq<CallRef>, direct: seq<string>, n: int, m: int, c: string) {
    || (exists k :: 0 <= k < n && k < |direct| && Calls(calls, c, FunctionName(direct[k])))
    || (0 <= n < |direct| && 0 <= m <= |calls| && Calls(calls[..m], c, FunctionName(direct[n])))
  }

  /** Call `i` is the first by which `c` reaches one of the direct callers, taken in their
      order, and `k` is the place of that direct caller. */
  ghost predicate FirstReach(calls: seq<CallRef>, direct: seq<string>, k: nat, i: nat, c: string) {
    && k < |direct| && i < |calls|
    && calls[i].caller == c && calls[i].callee == FunctionName(direct[k])
    && !Reached(calls, direct, k, i, c)
  }

  /** The files that the given transitive callers bring in, one for each. */
  ghost function FirstFiles(calls: seq<CallRef>, direct: seq<string>, transitive: seq<string>): set<string> {
    set k, i | 0 <= k < |direct| && 0 <= i < |calls|
               && calls[i].caller in transitive && FirstReach(calls, direct, k, i, calls[i].caller) :: calls[i].file
  }

  lemma CallsPrefix(calls: seq<CallRef>, m: nat, c: string, name: string)
    requires m < |calls|
    ensures Calls(calls[..m + 1], c, name) <==> Calls(calls[..m], c, name) || (calls[m].caller == c && calls[m].callee == name)
  {
    if Calls(calls[..m], c, name) {
      var i :| 0 <= i < m && calls[..m][i].caller == c && calls[..m][i].callee == name;
      assert calls[..m + 1][i] == calls[i];
    }
    if calls[m].caller == c && calls[m].callee == name {
      assert calls[..m + 1][m] == calls[m];
    }
  }

  /** What the nested loops have collected when they stand at direct caller `n` and call `m`. */
  ghost predicate Collected(calls: seq<CallRef>, direct: seq<string>, n: int, m: int,
                            transitive: seq<string>, files0: set<string>, files: set<string>) {
    && NoRepeat(transitive)
    && (forall c :: c in transitive <==> c !in direct && Reached(calls, direct, n, m, c))
    && FilesTrack(calls, direct, transitive, files0, files)
  }

  /** The nested loops over direct callers and calls. */
  method TransitiveCallers(calls: seq<CallRef>, direct: seq<string>, files0: set<string>)
    returns (transitive: seq<string>, files: set<string>)
    ensures NoRepeat(transitive)
    ensures forall c :: c in transitive <==>
              c !in direct && exists k :: 0 <= k < |direct| && Calls(calls, c, FunctionName(direct[k]))
    ensures FilesTrack(calls, direct, transitive, files0, files)
  {
    transitive, files := [], files0;
    var n := 0;
    while n < |direct|
      invariant 0 <= n <= |direct|
      invariant Collected(calls, direct, n, 0, transitive, files0, files)
    {
      var name := FunctionName(direct[n]);
      var m := 0;
      while m < |calls|
        invariant 0 <= m <= |calls|
        invariant Collected(calls, direct, n, m, transitive, files0, files)
      {
        var call := calls[m];
        CollectNext(calls, direct, n, m, transitive, files0, files);
        if call.callee == name && call.caller !in direct && call.caller !in transitive {
          transitive := transitive + [call.caller];
          files := files + {call.file};
        }
        m := m + 1;
      }
      forall c ensures Reached(calls, direct, n + 1, 0, c) <==> Reached(calls, direct, n, m, c) {
        RowDone(calls, direct, n, c);
      }
      n := n + 1;
    }
  }

  lemma CollectNext(calls: seq<CallRef>, direct: seq<string>, n: nat, m: nat,
                    transitive: seq<string>, files0: set<string>, files: set<string>)
    requires n < |direct| && m < |calls| && Collected(calls, direct, n, m, transitive, files0, files)
    ensures var call := calls[m];
            if call.callee == FunctionName(direct[n]) && call.caller !in direct && call.caller !in transitive
            then Collected(calls, direct, n, m + 1, transitive + [call.caller], files0, files + {call.file})
            else Collected(calls, direct, n, m + 1, transitive, files0, files)
  {
    var call, name := calls[m], FunctionName(direct[n]);
    forall c ensures Reached(calls, direct, n, m + 1, c) <==>
                     Reached(calls, direct, n, m, c) || (call.callee == name && c == call.caller)
    {
      CallsPrefix(calls, m, c, name);
    }
    if call.callee == name && call.caller !in direct && call.caller !in transitive {
      FilesTrackNext(calls, direct, transitive, files0, files, n, m);
    }
  }

  lemma RowDone(calls: seq<CallRef>, direct: seq<string>, n: nat, c: string)
    requires n < |direct|
    ensures Reached(calls, direct, n + 1, 0, c) <==> Reached(calls, direct, n, |calls|, c)
  {
    assert calls[..|calls|] == calls;
    assert !Calls(calls[..0], c, if n + 1 < |direct| then FunctionName(direct[n + 1]) else "");
  }

  /** Each transitive caller brought one file, and nothing else was added. */
  ghost predicate FilesTrack(calls: seq<CallRef>, direct: seq<string>, transitive: seq<string>, files0: set<string>, files: set<string>) {
    files == files0 + FirstFiles(calls, direct, transitive)
  }

  lemma FirstReachIsUnique(calls: seq<CallRef>, direct: seq<string>, k: nat, i: nat, k': nat, i': nat, c: string)
    requires FirstReach(calls, direct, k, i, c) && FirstReach(calls, direct, k', i', c)
    ensures i == i' && k == k'
  {
    if k < k' || (k == k' && i < i') { ReachedAfter(calls, direct, k, i, k', i', c); }
    if k' < k || (k == k' && i' < i) { ReachedAfter(calls, direct, k', i', k, i, c); }
  }

  lemma ReachedAfter(calls: seq<CallRef>, direct: seq<string>, k: nat, i: nat, n: nat, m: nat, c: string)
    requires FirstReach(calls, direct, k, i, c) && n < |direct| && m < |calls|
    requires k < n || (k == n && i < m)
    ensures Reached(calls, direct, n, m, c)
  {
    if k == n {
      assert calls[..m][i] == calls[i];
    }
  }

  lemma FilesTrackNext(calls: seq<CallRef>, direct: seq<string>, transitive: seq<string>, files0: set<string>, files: set<string>,
                       n: nat, m: nat)
    requires n < |direct| && m < |calls| && FirstReach(calls, direct, n, m, calls[m].caller)
    requires FilesTrack(calls, direct, transitive, files0, files)
    ensures FilesTrack(calls, direct, transitive + [calls[m].caller], files0, files + {calls[m].file})
  {
    var c := calls[m].caller;
    var transitive' := transitive + [c];
    var before, after := FirstFiles(calls, direct, transitive), FirstFiles(calls, direct, transitive');
    forall f | f in after ensures f in before + {calls[m].file} {
      var k, i :| 0 <= k < |direct| && 0 <= i < |calls| && calls[i].file == f && calls[i].caller in transitive'
                  && FirstReach(calls, direct, k, i, calls[i].caller);
      if calls[i].caller == c { FirstReachIsUnique(calls, direct, k, i, n, m, c); }
    }
    forall f | f in before ensures f in after {
      var k, i :| 0 <= k < |direct| && 0 <= i < |calls| && calls[i].file == f && calls[i].caller in transitive
                  && FirstReach(calls, direct, k, i, calls[i].caller);
      assert calls[i].caller in transitive';
    }
    assert c in transitive';
  }

  function ReferenceFiles(calls: seq<CallRef>, symbol: string): set<string> {
    set i | 0 <= i < |calls| && calls[i].callee == symbol :: calls[i].file
  }

  function ImporterFiles(dependencies: seq<Dependency>, symbol: string): set<string> {
    set i | 0 <= i < |dependencies| && Imports(dependencies[i], symbol) :: dependencies[i].fromFile
  }

  const TEST_PREFIX := "test_"

  function AffectedTests(symbols: seq<CodeSymbol>, files: set<string>): seq<string> {
    if symbols == [] then []
    else
      var s := symbols[|symbols| - 1];
      AffectedTests(symbols[..|symbols| - 1], files) + if TEST_PREFIX <= s.name && s.file in files then [s.name] else []
  }

  method Impact(g: CodeGraph, symbol: string) returns (r: ImpactAnalysis)
    ensures ImpactOf(g, symbol, r) && FilesOf(g, symbol, r)
    ensures r.affectedTests == AffectedTests(g.symbols, r.affectedFiles)
    ensures RiskFits(g.symbols, symbol, |r.directlyAffected| + |r.transitivelyAffected|, r.riskLevel)
    ensures CountsCalls(g.calls, symbol, r.directlyAffected)
    ensures forall f :: f in r.affectedFiles <==> IsAffectedFile(g, symbol, r, f)
    ensures ListsTests(g.symbols, r.affectedFiles, r.affectedTests)
  {
    var direct := Callers(FindReferences(g.calls, symbol));
    var files := ReferenceFiles(g.calls, symbol) + ImporterFiles(g.dependencies, symbol);
    var transitive;
    transitive, files := TransitiveCallers(g.calls, direct, files);
    TransitiveAreTwoHops(g.calls, symbol, direct, transitive);
    var total := |direct| + |transitive|;
    r := ImpactAnalysis(symbol, direct, transitive, files, AffectedTests(g.symbols, files),
                        Risk(total, IsPublic(g.symbols, symbol)));
    DirectCountsCalls(g.calls, symbol);
    forall f ensures f in files <==> IsAffectedFile(g, symbol, r, f) {
      FilesAreAffected(g, symbol, r, f);
    }
    TestsAreListed(g.symbols, files);
    RiskIsFitting(g.symbols, symbol, total);
  }

  lemma TwoHopsFromDirect(calls: seq<CallRef>, symbol: string, direct: seq<string>, c: string)
    requires forall d :: d in direct <==> Calls(calls, d, symbol)
    ensures TwoHops(calls, symbol, c) <==> exists k :: 0 <= k < |direct| && Calls(calls, c, FunctionName(direct[k]))
  {
    if TwoHops(calls, symbol, c) {
      var d :| Calls(calls, d, symbol) && Calls(calls, c, FunctionName(d));
      assert d in direct;
    }
    forall k | 0 <= k < |direct| && Calls(calls, c, FunctionName(direct[k])) ensures TwoHops(calls, symbol, c) {
      assert direct[k] in direct;
    }
  }

  lemma TransitiveAreTwoHops(calls: seq<CallRef>, symbol: string, direct: seq<string>, transitive: seq<string>)
    requires direct == Callers(FindReferences(calls, symbol))
    requires forall c :: c in transitive <==>
               c !in direct && exists k :: 0 <= k < |direct| && Calls(calls, c, FunctionName(direct[k]))
    ensures forall c :: c in direct <==> Calls(calls, c, symbol)
    ensures forall c :: c in transitive <==> TwoHops(calls, symbol, c) && !Calls(calls, c, symbol)
  {
    forall c ensures c in direct <==> Calls(calls, c, symbol) {
      DirectAreCallers(calls, symbol, c);
    }
    forall c ensures c in transitive <==> TwoHops(calls, symbol, c) && !Calls(calls, c, symbol) {
      TwoHopsFromDirect(calls, symbol, direct, c);
    }
  }

  // ---- A growing graph never looks safer ----

  lemma {:induction false} ReferencesAppend(a: seq<CallRef>, b: seq<CallRef>, symbol: string)
    ensures FindReferences(a + b, symbol) == FindReferences(a, symbol) + FindReferences(b, symbol)
  {
    if b == [] {
      assert a + b == a;
    } else {
      var n := |b| - 1;
      assert (a + b)[..|a| + n] == a + b[..n];
      ReferencesAppend(a, b[..n], symbol);
    }
  }

  lemma CallsGrow(a: seq<CallRef>, b: seq<CallRef>, c: string, name: string)
    requires Calls(a, c, name)
    ensures Calls(a + b, c, name)
  {
    var i :| 0 <= i < |a| && a[i].caller == c && a[i].callee == name;
    assert (a + b)[i] == a[i];
  }

  /** Adding calls never lowers the number of affected callers, even when a transitive
      caller becomes a direct one. */
  lemma AffectedGrows(g: CodeGraph, g': CodeGraph, extra: seq<CallRef>, symbol: string, r: ImpactAnalysis, r': ImpactAnalysis)
    requires ImpactOf(g, symbol, r) && ImpactOf(g', symbol, r') && g'.calls == g.calls + extra
    ensures |r.directlyAffected| + |r.transitivelyAffected| <= |r'.directlyAffected| + |r'.transitivelyAffected|
  {
    ReferencesAppend(g.calls, extra, symbol);
    var added := Callers(FindReferences(extra, symbol));
    assert r'.directlyAffected == r.directlyAffected + added;
    forall c | c in r.transitivelyAffected ensures c in r'.transitivelyAffected || c in added {
      StaysAffected(g, g', extra, symbol, r, r', c);
    }
    CoveredByTwo(r.transitivelyAffected, r'.transitivelyAffected, added);
  }

  lemma CoveredByTwo(s: seq<string>, still: seq<string>, moved: seq<string>)
    requires NoRepeat(s) && forall c :: c in s ==> c in still || c in moved
    ensures |s| <= |still| + |moved|
  {
    var a, b := set c | c in still, set c | c in moved;
    Pigeonhole(s, a + b);
    ElementsFit(still, a);
    ElementsFit(moved, b);
    UnionIsSmall(a, b);
  }

  lemma UnionIsSmall(a: set<string>, b: set<string>)
    ensures |a + b| <= |a| + |b|
  {
    assert a + b == a + (b - a);
    assert b == (b - a) + (a * b);
  }

  /** A transitive caller stays one, or a new call makes it a direct one. */
  lemma StaysAffected(g: CodeGraph, g': CodeGraph, extra: seq<CallRef>, symbol: string, r: ImpactAnalysis, r': ImpactAnalysis, c: string)
    requires ImpactOf(g, symbol, r) && ImpactOf(g', symbol, r') && g'.calls == g.calls + extra
    requires c in r.transitivelyAffected
    ensures c in r'.transitivelyAffected || c in Callers(FindReferences(extra, symbol))
  {
    var d :| Calls(g.calls, d, symbol) && Calls(g.calls, c, FunctionName(d));
    CallsGrow(g.calls, extra, d, symbol);
    CallsGrow(g.calls, extra, c, FunctionName(d));
    assert TwoHops(g'.calls, symbol, c);
    if Calls(g'.calls, c, symbol) {
      CallsSplit(g.calls, extra, c, symbol);
      DirectAreCallers(extra, symbol, c);
    }
  }

  lemma CallsSplit(a: seq<CallRef>, b: seq<CallRef>, c: string, name: string)
    requires Calls(a + b, c, name)
    ensures Calls(a, c, name) || Calls(b, c, name)
  {
    var i :| 0 <= i < |a + b| && (a + b)[i].caller == c && (a + b)[i].callee == name;
    if i >= |a| {
      assert b[i - |a|].caller == c && b[i - |a|].callee == name;
    }
  }

  /** Adding calls or symbols to the graph never lowers the risk level. */
  lemma RiskNeverFalls(g: CodeGraph, g': CodeGraph, calls: seq<CallRef>, symbols: seq<CodeSymbol>, symbol: string,
                       r: ImpactAnalysis, r': ImpactAnalysis)
    requires ImpactOf(g, symbol, r) && ImpactOf(g', symbol, r')
    requires g'.calls == g.calls + calls && g'.symbols == g.symbols + symbols
    ensures Severity(r.riskLevel) <= Severity(r'.riskLevel)
  {
    AffectedGrows(g, g', calls, symbol, r, r');
    assert IsPublic(g.symbols, symbol) ==> IsPublic(g'.symbols, symbol);
  }

  // ---- Context selection ----

  function SymbolTokens(s: CodeSymbol): nat {
    10 + SnippetTokens(s)
  }

  function SnippetTokens(s: CodeSymbol): nat {
    if s.signature.Some? then |s.signature.value| / 4 else 0
  }

  function DependencyTokens(d: Dependency): nat {
    5 + |d.importedSymbols| * 3
  }

  function SymbolCost(symbols: seq<CodeSymbol>): nat {
    if symbols == [] then 0 else SymbolCost(symbols[..|symbols| - 1]) + SymbolTokens(symbols[|symbols| - 1])
  }

  function SnippetCost(snippets: seq<CodeSymbol>): nat {
    if snippets == [] then 0 else SnippetCost(snippets[..|snippets| - 1]) + SnippetTokens(snippets[|snippets| - 1])
  }

  function DependencyCost(deps: seq<Dependency>): nat {
    if deps == [] then 0 else DependencyCost(deps[..|deps| - 1]) + DependencyTokens(deps[|deps| - 1])
  }

  ghost function Quarter(s: CodeSymbol): nat {
    if s.signature.Some? then |s.signature.value| / 4 else 0
  }

  /** What a context is estimated at: ten tokens per symbol and a quarter of its signature, a
      quarter of the signature per snippet, five tokens per dependency and three per import. */
  ghost predicate Estimated(c: CodeContext) {
    c.totalTokensEstimate
    == 10 * |c.symbols| + Sum(c.symbols, s => Quarter(s)) + Sum(c.snippets, s => Quarter(s))
       + 5 * |c.dependencies| + 3 * Sum(c.dependencies, (d: Dependency) => |d.importedSymbols|)
  }

  lemma {:induction false} SymbolCostIsSum(symbols: seq<CodeSymbol>)
    ensures SymbolCost(symbols) == 10 * |symbols| + Sum(symbols, s => Quarter(s))
    ensures SnippetCost(symbols) == Sum(symbols, s => Quarter(s))
  {
    if symbols != [] { SymbolCostIsSum(symbols[..|symbols| - 1]); }
  }

  lemma {:induction false} DependencyCostIsSum(deps: seq<Dependency>)
    ensures DependencyCost(deps) == 5 * |deps| + 3 * Sum(deps, (d: Dependency) => |d.importedSymbols|)
  {
    if deps != [] { DependencyCostIsSum(deps[..|deps| - 1]); }
  }

  /** The symbols that score above zero, best first, ties in source order. */
  function Scored(symbols: seq<CodeSymbol>, score: CodeSymbol -> real): seq<CodeSymbol> {
    Sort((s: CodeSymbol) => -score(s), Positive(symbols, score))
  }

  function Positive(symbols: seq<CodeSymbol>, score: CodeSymbol -> real): seq<CodeSymbol> {
    if symbols == [] then []
    else
      var s := symbols[|symbols| - 1];
      Positive(symbols[..|symbols| - 1], score) + if score(s) > 0.0 then [s] else []
  }

  /** The snippets of the selected symbols: each symbol's signature if it still fits once
      that symbol is in. */
  function TakenSnippets(symbols: seq<CodeSymbol>, maxTokens: nat): seq<CodeSymbol> {
    if symbols == [] then []
    else
      var s, before := symbols[|symbols| - 1], TakenSnippets(symbols[..|symbols| - 1], maxTokens);
      if s.signature.Some? && SymbolCost(symbols) + SnippetCost(before) + SnippetTokens(s) <= maxTokens then before + [s]
      else before
  }

  /** The relevant dependencies in source order, each if it still fits. */
  function TakenDependencies(deps: seq<Dependency>, relevant: Dependency -> bool, base: nat, maxTokens: nat): seq<Dependency> {
    if deps == [] then []
    else
      var d, before := deps[|deps| - 1], TakenDependencies(deps[..|deps| - 1], relevant, base, maxTokens);
      if relevant(d) && base + DependencyCost(before) + DependencyTokens(d) <= maxTokens then before + [d]
      else before
  }

  /** What is offered later never displaces what was taken before. */
  lemma {:induction false} EarlierComesFirst(symbols: seq<CodeSymbol>, deps: seq<Dependency>, relevant: Dependency -> bool,
                                             base: nat, maxTokens: nat, i: nat, j: nat)
    requires i <= |symbols| && j <= |deps|
    ensures TakenSnippets(symbols[..i], maxTokens) <= TakenSnippets(symbols, maxTokens)
    ensures TakenDependencies(deps[..j], relevant, base, maxTokens) <= TakenDependencies(deps, relevant, base, maxTokens)
    decreases |symbols| + |deps|
  {
    if i < |symbols| {
      EarlierComesFirst(symbols[..|symbols| - 1], deps, relevant, base, maxTokens, i, j);
      assert symbols[..|symbols| - 1][..i] == symbols[..i];
    } else if j < |deps| {
      EarlierComesFirst(symbols, deps[..|deps| - 1], relevant, base, maxTokens, i, j);
      assert deps[..|deps| - 1][..j] == deps[..j];
      assert symbols[..i] == symbols;
    } else {
      assert symbols[..i] == symbols && deps[..j] == deps;
    }
  }

  /** A signature left out would pass the budget even if it were added at the end. */
  lemma {:induction false} SnippetIsMaximal(symbols: seq<CodeSymbol>, maxTokens: nat, s: CodeSymbol)
    ensures var taken := TakenSnippets(symbols, maxTokens);
            && (s in taken ==> s in symbols && s.signature.Some?)
            && (s in symbols && s.signature.Some? && s !in taken ==>
                  SymbolCost(symbols) + SnippetCost(taken) + SnippetTokens(s) > maxTokens)
  {
    if symbols != [] {
      var n := |symbols| - 1;
      SnippetIsMaximal(symbols[..n], maxTokens, s);
      var before := TakenSnippets(symbols[..n], maxTokens);
      assert (before + [symbols[n]])[..|before|] == before;
      assert s in symbols <==> s in symbols[..n] || s == symbols[n];
    }
  }

  /** The same for a relevant dependency left out. */
  lemma {:induction false} DependencyIsMaximal(deps: seq<Dependency>, relevant: Dependency -> bool, base: nat, maxTokens: nat, d: Dependency)
    ensures var taken := TakenDependencies(deps, relevant, base, maxTokens);
            && (d in taken ==> d in deps && relevant(d))
            && (d in deps && relevant(d) && d !in taken ==>
                  base + DependencyCost(taken) + DependencyTokens(d) > maxTokens)
  {
    if deps != [] {
      var n := |deps| - 1;
      DependencyIsMaximal(deps[..n], relevant, base, maxTokens, d);
      var before := TakenDependencies(deps[..n], relevant, base, maxTokens);
      assert (before + [deps[n]])[..|before|] == before;
      assert d in deps <==> d in deps[..n] || d == deps[n];
    }
  }

  /** A snippet is represented by the symbol whose signature it shows. */
  datatype CodeContext = CodeContext(
    symbols: seq<CodeSymbol>, snippets: seq<CodeSymbol>, dependencies: seq<Dependency>, totalTokensEstimate: nat)

  /** What was taken was on offer, and nothing on offer that was left out still fits. */
  ghost predicate Packed(g: CodeGraph, relevant: Dependency -> bool, c: CodeContext, maxTokens: nat) {
    && (forall s :: s in c.snippets ==> s in c.symbols && s.signature.Some?)
    && (forall s :: s in c.symbols && s.signature.Some? && s !in c.snippets ==>
          SymbolCost(c.symbols) + SnippetCost(c.snippets) + SnippetTokens(s) > maxTokens)
    && (forall d :: d in c.dependencies ==> d in g.dependencies && relevant(d))
    && (forall d :: d in g.dependencies && relevant(d) && d !in c.dependencies ==>
          SymbolCost(c.symbols) + SnippetCost(c.snippets) + DependencyCost(c.dependencies) + DependencyTokens(d) > maxTokens)
  }

  /** The greedy choices pack the budget. */
  lemma GreedyIsPacked(g: CodeGraph, relevant: Dependency -> bool, c: CodeContext, maxTokens: nat)
    requires c.snippets == TakenSnippets(c.symbols, maxTokens)
    requires c.dependencies
             == TakenDependencies(g.dependencies, relevant, SymbolCost(c.symbols) + SnippetCost(c.snippets), maxTokens)
    ensures Packed(g, relevant, c, maxTokens)
  {
    forall s: CodeSymbol { SnippetIsMaximal(c.symbols, maxTokens, s); }
    forall d: Dependency {
      DependencyIsMaximal(g.dependencies, relevant, SymbolCost(c.symbols) + SnippetCost(c.snippets), maxTokens, d);
    }
  }

  /** Packs symbols with their snippets and then dependencies. The total is the cost of
      what was taken and within budget; the symbols are the best-scored ones, as many as fit. */
  method RelevantContext(g: CodeGraph, score: CodeSymbol -> real, relevant: Dependency -> bool, maxTokens: nat)
    returns (c: CodeContext)
    ensures c.totalTokensEstimate == SymbolCost(c.symbols) + SnippetCost(c.snippets) + DependencyCost(c.dependencies)
    ensures Estimated(c) && c.totalTokensEstimate <= maxTokens
    ensures c.symbols <= Scored(g.symbols, score)
    ensures c.symbols < Scored(g.symbols, score) ==>
              SymbolCost(c.symbols) + SnippetCost(c.snippets) + SymbolTokens(Scored(g.symbols, score)[|c.symbols|]) > maxTokens
    ensures c.snippets == TakenSnippets(c.symbols, maxTokens)
    ensures c.dependencies
            == TakenDependencies(g.dependencies, relevant, SymbolCost(c.symbols) + SnippetCost(c.snippets), maxTokens)
    ensures Packed(g, relevant, c, maxTokens)
  {
    var scored := Scored(g.symbols, score);
    var symbols, snippets, used := SelectSymbols(scored, maxTokens);
    var deps, total := SelectDependencies(g.dependencies, relevant, used, maxTokens);
    c := CodeContext(symbols, snippets, deps, total);
    assert c.symbols == symbols && c.snippets == snippets && c.dependencies == deps;
    assert SymbolCost(c.symbols) + SnippetCost(c.snippets) == used;
    GreedyIsPacked(g, relevant, c, maxTokens);
    SymbolCostIsSum(symbols);
    SymbolCostIsSum(snippets);
    DependencyCostIsSum(deps);
  }

  method SelectDependencies(deps: seq<Dependency>, relevant: Dependency -> bool, base: nat, maxTokens: nat)
    returns (taken: seq<Dependency>, used: nat)
    requires base <= maxTokens
    ensures taken == TakenDependencies(deps, relevant, base, maxTokens)
    ensures used == base + DependencyCost(taken) <= maxTokens
  {
    taken, used := [], base;
    var i := 0;
    while i < |deps|
      invariant 0 <= i <= |deps|
      invariant used == base + DependencyCost(taken) <= maxTokens
      invariant taken == TakenDependencies(deps[..i], relevant, base, maxTokens)
    {
      var d := deps[i];
      assert deps[..i + 1][..i] == deps[..i];
      if relevant(d) && used + DependencyTokens(d) <= maxTokens {
        used := used + DependencyTokens(d);
        assert (taken + [d])[..|taken|] == taken;
        taken := taken + [d];
      }
      i := i + 1;
    }
    assert deps[..i] == deps;
  }

  lemma SelectNext(scored: seq<CodeSymbol>, i: nat, snippets: seq<CodeSymbol>, maxTokens: nat)
    requires i < |scored|
    ensures var symbols, s := scored[..i], scored[i];
            && scored[..i + 1] == symbols + [s]
            && SymbolCost(symbols + [s]) == SymbolCost(symbols) + SymbolTokens(s)
            && SnippetCost(snippets + [s]) == SnippetCost(snippets) + SnippetTokens(s)
            && (var before := TakenSnippets(symbols, maxTokens);
                TakenSnippets(symbols + [s], maxTokens)
                == if s.signature.Some? && SymbolCost(symbols + [s]) + SnippetCost(before) + SnippetTokens(s) <= maxTokens
                   then before + [s] else before)
  {
    var symbols, s := scored[..i], scored[i];
    assert (symbols + [s])[..|symbols|] == symbols;
    assert (snippets + [s])[..|snippets|] == snippets;
  }

  method SelectSymbols(scored: seq<CodeSymbol>, maxTokens: nat)
    returns (symbols: seq<CodeSymbol>, snippets: seq<CodeSymbol>, used: nat)
    ensures symbols <= scored && used == SymbolCost(symbols) + SnippetCost(snippets) <= maxTokens
    ensures symbols < scored ==> used + SymbolTokens(scored[|symbols|]) > maxTokens
    ensures snippets == TakenSnippets(symbols, maxTokens)
  {
    symbols, snippets, used := [], [], 0;
    var i := 0;
    while i < |scored|
      invariant 0 <= i <= |scored| && symbols == scored[..i]
      invariant used == SymbolCost(symbols) + SnippetCost(snippets) <= maxTokens
      invariant snippets == TakenSnippets(symbols, maxTokens)
    {
      var sym := scored[i];
      if used + SymbolTokens(sym) > maxTokens {
        return;
      }
      used := used + SymbolTokens(sym);
      SelectNext(scored, i, snippets, maxTokens);
      symbols := symbols + [sym];
      if sym.signature.Some? && used + SnippetTokens(sym) <= maxTokens {
        used := used + SnippetTokens(sym);
        snippets := snippets + [sym];
      }
      i := i + 1;
    }
  }

  lemma {:induction false} PositiveCount(symbols: seq<CodeSymbol>, score: CodeSymbol -> real, s: CodeSymbol)
    ensures multiset(Positive(symbols, score))[s] == if score(s) > 0.0 then multiset(symbols)[s] else 0
  {
    if symbols != [] {
      var n := |symbols| - 1;
      PositiveCount(symbols[..n], score, s);
      assert symbols == symbols[..n] + [symbols[n]];
    }
  }

  /** The selection order is by falling score, over exactly the symbols that score above
      zero, each as often as the graph has it. */
  lemma ScoredByFallingScore(symbols: seq<CodeSymbol>, score: CodeSymbol -> real)
    ensures var scored := Scored(symbols, score);
            && (forall s :: multiset(scored)[s] == if score(s) > 0.0 then multiset(symbols)[s] else 0)
            && forall i, j :: 0 <= i < j < |scored| ==> score(scored[i]) >= score(scored[j])
  {
    var key := (s: CodeSymbol) => -score(s);
    SortPermutes(key, Positive(symbols, score));
    SortAscending(key, Positive(symbols, score));
    assert Scored(symbols, score) == Sort(key, Positive(symbols, score));
    forall s ensures multiset(Scored(symbols, score))[s] == if score(s) > 0.0 then multiset(symbols)[s] else 0 {
      PositiveCount(symbols, score, s);
    }
  }

  ghost predicate InOrder(earlier: (CodeSymbol, CodeSymbol) -> bool, symbols: seq<CodeSymbol>) {
    forall i, j :: 0 <= i < j < |symbols| ==> earlier(symbols[i], symbols[j])
  }

  lemma {:induction false} PositiveKeepsOrder(symbols: seq<CodeSymbol>, score: CodeSymbol -> real, earlier: (CodeSymbol, CodeSymbol) -> bool)
    requires InOrder(earlier, symbols)
    ensures InOrder(earlier, Positive(symbols, score))
    ensures forall s :: s in Positive(symbols, score) ==> s in symbols
  {
    if symbols != [] {
      var n := |symbols| - 1;
      PositiveKeepsOrder(symbols[..n], score, earlier);
      var before := Positive(symbols[..n], score);
      forall i | 0 <= i < |before| ensures earlier(before[i], symbols[n]) {
        assert before[i] in symbols[..n];
        var j :| 0 <= j < n && symbols[j] == before[i];
      }
      assert forall s :: s in symbols[..n] ==> s in symbols;
    }
  }

  /** Symbols of equal score keep the order of the graph, whatever relation expresses it. */
  lemma TiesKeepSourceOrder(symbols: seq<CodeSymbol>, score: CodeSymbol -> real, earlier: (CodeSymbol, CodeSymbol) -> bool)
    requires InOrder(earlier, symbols)
    ensures TiesOrdered((s: CodeSymbol) => score(s), earlier, Scored(symbols, score))
  {
    var key := (s: CodeSymbol) => -score(s);
    var p := Positive(symbols, score);
    PositiveKeepsOrder(symbols, score, earlier);
    SortStable(key, earlier, p);
    var scored := Sort(key, p);
    assert Scored(symbols, score) == scored;
    forall i, j | 0 <= i < j < |scored| && score(scored[i]) == score(scored[j]) ensures earlier(scored[i], scored[j]) {
      assert Precedes(key, earlier, scored[i], scored[j]);
    }
  }
}
