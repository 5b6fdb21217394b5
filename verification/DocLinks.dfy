/**
 The documentation link checker: every link of every file against the anchors of its target, with
 a cache of the anchors already collected, then the runbook fragments of the alerting rules.
 */
module DocLinks {
  import opened Collections
  import opened DocAnchors

  type Path = string

  /** What a path that exists leads to; a directory, for one, has no text to read. */
  datatype Node = Text(lines: seq<Line>) | Unreadable

  /**
   The repository as the checker sees it: the markdown files in order, everything that exists, how a
   relative target resolves, and for each line of the rules file the runbook fragment found in it.
   */
  datatype World = World(
    files: seq<Path>, tree: map<Path, Node>, resolve: (Path, string) -> Path, inRepository: Path -> bool,
    runbook: Path, rules: Option<seq<Option<string>>>)

  datatype Failure =
    | NoSuchFile(path: Path, lineno: nat, target: string)
    | NoSuchHeading(path: Path, lineno: nat, anchor: string, resolved: Path)
    | NoSuchRunbookHeading(lineno: nat, anchor: string)

  /** Exit code 0 means no failures, exit code 1 some; an exception ends the program otherwise. */
  datatype Outcome = Exit(failures: seq<Failure>) | Crashed

  // ---- targets

  predicate External(target: string) {
    "http://" <= target || "https://" <= target || "mailto:" <= target
  }

  /** The part before the first '#'. */
  function FilePart(target: string): (r: string)
    ensures '#' !in r && r <= target && (r == target || target[|r|] == '#')
  {
    if target == "" || target[0] == '#' then "" else [target[0]] + FilePart(target[1..])
  }

  /** The part after the first '#', empty when there is none. */
  function Fragment(target: string): string {
    var n := |FilePart(target)|;
    if n == |target| then "" else target[n + 1..]
  }

  function StripHashes(s: string): (r: string)
    ensures r == "" || r[0] != '#'
  {
    if s != "" && s[0] == '#' then StripHashes(s[1..]) else s
  }

  /** What is stripped are hashes, and all that stand in front. */
  lemma {:induction false} OnlyHashesStripped(s: string)
    ensures var r := StripHashes(s);
            |r| <= |s| && r == s[|s| - |r|..] && forall i :: 0 <= i < |s| - |r| ==> s[i] == '#'
  {
    if s != "" && s[0] == '#' {
      OnlyHashesStripped(s[1..]);
      var r := StripHashes(s);
      assert s == [s[0]] + s[1..];
    }
  }

  /** The first '#' divides a target, and only the first. */
  lemma {:induction false} Divided(file: string, anchor: string)
    requires '#' !in file
    ensures FilePart(file) == file && Fragment(file) == ""
    ensures FilePart(file + "#" + anchor) == file && Fragment(file + "#" + anchor) == anchor
  {
    var target := file + "#" + anchor;
    if file != "" {
      Divided(file[1..], anchor);
      assert target[1..] == file[1..] + "#" + anchor;
    }
    assert target[|file| + 1..] == anchor;
  }

  /** Exactly the targets that begin with one of the three schemes are skipped. */
  lemma SkippedTargets(target: string)
    ensures External(target) <==>
              exists rest :: target == "http://" + rest || target == "https://" + rest || target == "mailto:" + rest
  {
    if "http://" <= target { assert target == "http://" + target[7..]; }
    if "https://" <= target { assert target == "https://" + target[8..]; }
    if "mailto:" <= target { assert target == "mailto:" + target[7..]; }
  }

  // ---- what a link should do

  predicate Readable(w: World, p: Path) {
    p in w.tree && w.tree[p].Text?
  }

  function LinesOf(w: World, p: Path): seq<Line> {
    if Readable(w, p) then w.tree[p].lines else []
  }

  function AnchorsOf(w: World, p: Path): set<string> {
    Anchors(Bases(LinesOf(w, p)))
  }

  /** The file that a link in this file leads to. */
  function Destination(w: World, path: Path, target: string): Path {
    if FilePart(target) == "" then path else w.resolve(path, FilePart(target))
  }

  /** Where it leads exists; and a fragment is an anchor of the text there. */
  predicate Resolves(w: World, path: Path, target: string) {
    || External(target)
    || (Fragment(target) == "" && (FilePart(target) == "" || Destination(w, path, target) in w.tree))
    || (Fragment(target) != "" && Readable(w, Destination(w, path, target))
        && Fragment(target) in AnchorsOf(w, Destination(w, path, target)))
  }

  predicate FileSound(w: World, path: Path) {
    && Readable(w, path)
    && forall i, t :: 0 <= i < |LinesOf(w, path)| && Visible(LinesOf(w, path), i) && t in LinesOf(w, path)[i].targets
                      ==> Resolves(w, path, t)
  }

  predicate RulesSound(w: World) {
    w.rules.Some? ==>
      && Readable(w, w.runbook)
      && forall i :: 0 <= i < |w.rules.value| && w.rules.value[i].Some?
                     ==> StripHashes(w.rules.value[i].value) in AnchorsOf(w, w.runbook)
  }

  ghost predicate Sound(w: World) {
    (forall i :: 0 <= i < |w.files| ==> FileSound(w, w.files[i])) && RulesSound(w)
  }

  // ---- the verdict on each thing that is checked, in order

  datatype Verdict = Fine | Broken(failure: Failure) | Raises

  function LinkVerdict(w: World, path: Path, l: Link): Verdict {
    var dest := Destination(w, path, l.target);
    if Resolves(w, path, l.target) then Fine
    else if dest !in w.tree && FilePart(l.target) != "" then Broken(NoSuchFile(path, l.lineno, l.target))
    else if !Readable(w, dest) then Raises
    else if FilePart(l.target) == "" || w.inRepository(dest)
    then Broken(NoSuchHeading(path, l.lineno, Fragment(l.target), dest))
    else Raises  // the message names the target relative to the repository
  }

  /**
   The verdict on a link, case by case: a file that does not exist, a heading that is not there, and
   what raises an exception, which is a fragment of something without text, or a missing heading of
   a file outside the repository.
   */
  lemma FailureMeans(w: World, path: Path, l: Link)
    ensures var target, v := l.target, LinkVerdict(w, path, l);
            var file, anchor := FilePart(target), Fragment(target);
            var dest := if file == "" then path else w.resolve(path, file);
            var missing := Readable(w, dest) && anchor !in AnchorsOf(w, dest);
            && (External(target) || (file == "" && anchor == "") ==> v == Fine)
            && (!External(target) && !(file == "" && anchor == "") ==>
                  && (v == Broken(NoSuchFile(path, l.lineno, target)) <==> file != "" && dest !in w.tree)
                  && (v == Broken(NoSuchHeading(path, l.lineno, anchor, dest)) <==>
                        anchor != "" && missing && (file == "" || w.inRepository(dest)))
                  && (v == Raises <==> anchor != "" && (file == "" || dest in w.tree)
                                       && (!Readable(w, dest) || (missing && file != "" && !w.inRepository(dest))))
                  && (v == Fine <==> if anchor == "" then dest in w.tree else Readable(w, dest) && !missing))
  {
  }

  function LinkVerdicts(w: World, path: Path, links: seq<Link>): seq<Verdict> {
    seq(|links|, i requires 0 <= i < |links| => LinkVerdict(w, path, links[i]))
  }

  function VerdictsOn(w: World, path: Path): seq<Verdict> {
    LinkVerdicts(w, path, Links(LinesOf(w, path)))
  }

  function Flatten(vss: seq<seq<Verdict>>): seq<Verdict> {
    if vss == [] then [] else Flatten(vss[..|vss| - 1]) + vss[|vss| - 1]
  }

  function PerFile(w: World, files: seq<Path>): seq<seq<Verdict>> {
    seq(|files|, i requires 0 <= i < |files| => VerdictsOn(w, files[i]))
  }

  function FileVerdicts(w: World, files: seq<Path>): seq<Verdict> {
    Flatten(PerFile(w, files))
  }

  function ReadVerdicts(w: World, files: seq<Path>): seq<Verdict> {
    seq(|files|, i requires 0 <= i < |files| => if Readable(w, files[i]) then Fine else Raises)
  }

  function RuleVerdict(w: World, lineno: nat, fragment: Option<string>): Verdict {
    if fragment.None? || StripHashes(fragment.value) in AnchorsOf(w, w.runbook) then Fine
    else Broken(NoSuchRunbookHeading(lineno, StripHashes(fragment.value)))
  }

  function RuleVerdicts(w: World, rules: seq<Option<string>>): seq<Verdict> {
    seq(|rules|, i requires 0 <= i < |rules| => RuleVerdict(w, i + 1, rules[i]))
  }

  /** A fragment, without the hashes in front of it, must be a heading of the runbook. */
  lemma RuleMeans(w: World, rules: seq<Option<string>>, i: nat, anchor: string)
    requires i < |rules| && rules[i] == Some("#" + anchor) && (anchor == "" || anchor[0] != '#')
    ensures RuleVerdicts(w, rules)[i]
         == if anchor in AnchorsOf(w, w.runbook) then Fine else Broken(NoSuchRunbookHeading(i + 1, anchor))
  {
    assert ("#" + anchor)[1..] == anchor;
    assert StripHashes("#" + anchor) == StripHashes(anchor) == anchor;
  }

  function RunbookVerdicts(w: World): seq<Verdict> {
    if w.rules.None? then [] else
      [if Readable(w, w.runbook) then Fine else Raises] + RuleVerdicts(w, w.rules.value)
  }

  function Verdicts(w: World): seq<Verdict> {
    ReadVerdicts(w, w.files) + FileVerdicts(w, w.files) + RunbookVerdicts(w)
  }

  function Then(o: Outcome, v: Verdict): Outcome {
    match o
    case Crashed => Crashed
    case Exit(failures) =>
      match v
      case Fine => o
      case Broken(f) => Exit(failures + [f])
      case Raises => Crashed
  }

  /** The outcome after these verdicts: the failures in order, unless one raised. */
  function After(o: Outcome, vs: seq<Verdict>): Outcome {
    if vs == [] then o else Then(After(o, vs[..|vs| - 1]), vs[|vs| - 1])
  }

  lemma {:induction false} AfterConcat(o: Outcome, a: seq<Verdict>, b: seq<Verdict>)
    ensures After(o, a + b) == After(After(o, a), b)
  {
    if b == [] {
      assert a + b == a;
    } else {
      var n := |b| - 1;
      assert (a + b)[..|a + b| - 1] == a + b[..n];
      AfterConcat(o, a, b[..n]);
    }
  }

  lemma {:induction false} AfterCrash(vs: seq<Verdict>)
    ensures After(Crashed, vs) == Crashed
  {
    if vs != [] { AfterCrash(vs[..|vs| - 1]); }
  }

  /** Failures are reported in the order in which they are met, after those already reported. */
  lemma {:induction false} FailuresFollow(failures: seq<Failure>, vs: seq<Verdict>)
    ensures var rest := After(Exit([]), vs);
            After(Exit(failures), vs) == if rest.Crashed? then Crashed else Exit(failures + rest.failures)
    ensures forall f :: After(Exit(failures), [Broken(f)]) == Exit(failures + [f])
  {
    assert forall v: Verdict :: [v][..0] == [];
    if vs != [] {
      FailuresFollow(failures, vs[..|vs| - 1]);
    }
  }

  lemma AfterStep(o: Outcome, vs: seq<Verdict>, i: nat)
    requires i < |vs|
    ensures After(o, vs[..i + 1]) == Then(After(o, vs[..i]), vs[i])
  {
    assert vs[..i + 1][..i] == vs[..i];
  }

  lemma CrashedMidway(o: Outcome, vs: seq<Verdict>, i: nat)
    requires i <= |vs| && After(o, vs[..i]) == Crashed
    ensures After(o, vs) == Crashed
  {
    assert vs == vs[..i] + vs[i..];
    AfterConcat(o, vs[..i], vs[i..]);
    AfterCrash(vs[i..]);
  }

  // ---- the program

  /** Whatever the cache holds is what collecting again would give. */
  ghost predicate CacheAgrees(w: World, cache: map<Path, set<string>>) {
    forall p :: p in cache ==> Readable(w, p) && cache[p] == AnchorsOf(w, p)
  }

  method Collect(w: World, p: Path) returns (anchors: Option<set<string>>)
    ensures anchors == if Readable(w, p) then Some(AnchorsOf(w, p)) else None
  {
    if p !in w.tree || w.tree[p].Unreadable? { return None; }
    var found := CollectAnchors(w.tree[p].lines);
    return Some(found);
  }

  method CheckLink(w: World, path: Path, l: Link, cache: map<Path, set<string>>)
    returns (cache': map<Path, set<string>>, verdict: Verdict)
    requires CacheAgrees(w, cache) && path in cache
    ensures CacheAgrees(w, cache') && cache.Keys <= cache'.Keys
    ensures verdict == LinkVerdict(w, path, l)
  {
    cache' := cache;
    var target := l.target;
    if External(target) { return cache', Fine; }
    var file, anchor := FilePart(target), Fragment(target);
    if anchor == "" {
      if file != "" && w.resolve(path, file) !in w.tree {
        return cache', Broken(NoSuchFile(path, l.lineno, target));
      }
      return cache', Fine;
    }
    var resolved := path;
    if file != "" {
      resolved := w.resolve(path, file);
      if resolved !in w.tree { return cache', Broken(NoSuchFile(path, l.lineno, target)); }
      if resolved !in cache' {
        var found := Collect(w, resolved);
        if found.None? { return cache', Raises; }
        cache' := cache'[resolved := found.value];
      }
    }
    if anchor in cache'[resolved] { return cache', Fine; }
    if file != "" && !w.inRepository(resolved) { return cache', Raises; }
    return cache', Broken(NoSuchHeading(path, l.lineno, anchor, resolved));
  }

  method CheckFile(w: World, path: Path, cache: map<Path, set<string>>, before: Outcome)
    returns (cache': map<Path, set<string>>, out: Outcome)
    requires CacheAgrees(w, cache) && path in cache
    ensures CacheAgrees(w, cache') && cache.Keys <= cache'.Keys
    ensures out == After(before, VerdictsOn(w, path))
  {
    cache', out := cache, before;
    var links := IterLinks(w.tree[path].lines);
    ghost var vs := LinkVerdicts(w, path, links);
    for i := 0 to |links|
      invariant CacheAgrees(w, cache') && cache.Keys <= cache'.Keys
      invariant out == After(before, vs[..i])
    {
      var verdict;
      cache', verdict := CheckLink(w, path, links[i], cache');
      AfterStep(before, vs, i);
      out := Then(out, verdict);
      if out.Crashed? {
        CrashedMidway(before, vs, i + 1);
        return;
      }
    }
    assert vs[..|links|] == vs;
  }

  ghost predicate Cached(files: seq<Path>, cache: map<Path, set<string>>) {
    forall p :: p in files ==> p in cache
  }

  lemma CachedStep(files: seq<Path>, i: nat, cache: map<Path, set<string>>, anchors: set<string>)
    requires i < |files| && Cached(files[..i], cache)
    ensures Cached(files[..i + 1], cache[files[i] := anchors])
  {
    assert files[..i + 1] == files[..i] + [files[i]];
  }

  lemma ReadStep(w: World, i: nat)
    requires i < |w.files| && After(Exit([]), ReadVerdicts(w, w.files)[..i]) == Exit([])
    ensures Readable(w, w.files[i]) ==> After(Exit([]), ReadVerdicts(w, w.files)[..i + 1]) == Exit([])
    ensures !Readable(w, w.files[i]) ==> After(Exit([]), ReadVerdicts(w, w.files)) == Crashed
  {
    var vs := ReadVerdicts(w, w.files);
    AfterStep(Exit([]), vs, i);
    if !Readable(w, w.files[i]) { CrashedMidway(Exit([]), vs, i + 1); }
  }

  method ReadAll(w: World) returns (cache: map<Path, set<string>>, out: Outcome)
    ensures CacheAgrees(w, cache)
    ensures out == After(Exit([]), ReadVerdicts(w, w.files))
    ensures out.Exit? ==> Cached(w.files, cache)
  {
    cache, out := map[], Exit([]);
    ghost var vs := ReadVerdicts(w, w.files);
    for i := 0 to |w.files|
      invariant CacheAgrees(w, cache)
      invariant After(Exit([]), vs[..i]) == Exit([])
      invariant Cached(w.files[..i], cache)
    {
      ReadStep(w, i);
      var found := Collect(w, w.files[i]);
      if found.None? { return cache, Crashed; }
      CachedStep(w.files, i, cache, found.value);
      cache := cache[w.files[i] := found.value];
    }
    assert vs[..|w.files|] == vs && w.files[..|w.files|] == w.files;
  }

  lemma FlattenStep(vss: seq<seq<Verdict>>, i: nat, o: Outcome)
    requires i < |vss|
    ensures After(o, Flatten(vss[..i + 1])) == After(After(o, Flatten(vss[..i])), vss[i])
  {
    assert vss[..i + 1][..i] == vss[..i];
    AfterConcat(o, Flatten(vss[..i]), vss[i]);
  }

  method CheckRules(w: World, rules: seq<Option<string>>, available: set<string>, before: Outcome)
    returns (out: Outcome)
    requires available == AnchorsOf(w, w.runbook)
    ensures out == After(before, RuleVerdicts(w, rules))
  {
    out := before;
    ghost var vs := RuleVerdicts(w, rules);
    for i := 0 to |rules|
      invariant out == After(before, vs[..i])
    {
      AfterStep(before, vs, i);
      if rules[i].Some? && out.Exit? {
        var anchor := StripHashes(rules[i].value);
        if anchor !in available {
          out := Exit(out.failures + [NoSuchRunbookHeading(i + 1, anchor)]);
        }
      }
    }
    assert vs[..|rules|] == vs;
  }

  method CheckRunbook(w: World, cache: map<Path, set<string>>, before: Outcome) returns (out: Outcome)
    requires CacheAgrees(w, cache) && before.Exit?
    ensures out == After(before, RunbookVerdicts(w))
  {
    if w.rules.None? { return before; }
    var rules := w.rules.value;
    var first := if Readable(w, w.runbook) then Fine else Raises;
    AfterConcat(before, [first], RuleVerdicts(w, rules));
    assert After(before, [first]) == Then(before, first) by { AfterStep(before, [first], 0); }
    var available;
    if w.runbook in cache && cache[w.runbook] != {} {
      available := cache[w.runbook];
    } else {
      var found := Collect(w, w.runbook);
      if found.None? {
        AfterCrash(RuleVerdicts(w, rules));
        return Crashed;
      }
      available := found.value;
    }
    out := CheckRules(w, rules, available, before);
  }

  /** The outcome after the first i files. */
  ghost function AfterFiles(w: World, i: nat): Outcome
    requires i <= |w.files|
  {
    After(Exit([]), Flatten(PerFile(w, w.files)[..i]))
  }

  lemma AfterFilesSteps(w: World, i: nat)
    requires i < |w.files|
    ensures AfterFiles(w, i + 1) == After(AfterFiles(w, i), VerdictsOn(w, w.files[i]))
  {
    FlattenStep(PerFile(w, w.files), i, Exit([]));
  }

  lemma AfterFilesEnds(w: World)
    ensures AfterFiles(w, 0) == Exit([]) && AfterFiles(w, |w.files|) == After(Exit([]), FileVerdicts(w, w.files))
  {
    assert PerFile(w, w.files)[..|w.files|] == PerFile(w, w.files);
  }

  method CheckFiles(w: World, cache: map<Path, set<string>>)
    returns (cache': map<Path, set<string>>, out: Outcome)
    requires CacheAgrees(w, cache) && Cached(w.files, cache)
    ensures CacheAgrees(w, cache')
    ensures out == After(Exit([]), FileVerdicts(w, w.files))
  {
    cache', out := cache, Exit([]);
    AfterFilesEnds(w);
    for i := 0 to |w.files|
      invariant CacheAgrees(w, cache') && cache.Keys <= cache'.Keys
      invariant out == AfterFiles(w, i)
    {
      AfterFilesSteps(w, i);
      assert w.files[i] in w.files && w.files[i] in cache'.Keys;
      cache', out := CheckFile(w, w.files[i], cache', out);
    }
  }

  /** The whole run: every failure in order, and success exactly when the documentation is sound. */
  method Check(w: World) returns (out: Outcome)
    ensures out == After(Exit([]), Verdicts(w))
    ensures out == Exit([]) <==> Sound(w)
  {
    ghost var a, b, c := ReadVerdicts(w, w.files), FileVerdicts(w, w.files), RunbookVerdicts(w);
    AfterConcat(Exit([]), a + b, c);
    AfterConcat(Exit([]), a, b);
    SucceedsIffSound(w);
    var cache;
    cache, out := ReadAll(w);
    if out.Crashed? {
      AfterCrash(b);
      AfterCrash(c);
      return;
    }
    ReadLeavesNothing(w, w.files);
    cache, out := CheckFiles(w, cache);
    if out.Crashed? {
      AfterCrash(c);
      return;
    }
    out := CheckRunbook(w, cache, out);
  }

  // ---- success means soundness

  ghost predicate AllFine(vs: seq<Verdict>) {
    forall i :: 0 <= i < |vs| ==> vs[i] == Fine
  }

  lemma {:induction false} AfterOnlyGrows(o: Outcome, vs: seq<Verdict>)
    requires o.Exit?
    ensures After(o, vs).Exit? ==> |After(o, vs).failures| >= |o.failures|
    ensures After(o, vs) == o <==> AllFine(vs)
  {
    if vs != [] {
      var n := |vs| - 1;
      AfterOnlyGrows(o, vs[..n]);
      assert AllFine(vs) <==> AllFine(vs[..n]) && vs[n] == Fine by { assert vs == vs[..n] + [vs[n]]; }
    }
  }

  lemma {:induction false} ReadLeavesNothing(w: World, files: seq<Path>)
    ensures After(Exit([]), ReadVerdicts(w, files)) in {Exit([]), Crashed}
  {
    if files != [] {
      var n := |files| - 1;
      ReadLeavesNothing(w, files[..n]);
      assert ReadVerdicts(w, files)[..n] == ReadVerdicts(w, files[..n]);
    }
  }

  lemma AllFineConcat(a: seq<Verdict>, b: seq<Verdict>)
    ensures AllFine(a + b) <==> AllFine(a) && AllFine(b)
  {
    if AllFine(a + b) {
      forall i | 0 <= i < |a| ensures a[i] == Fine { assert (a + b)[i] == Fine; }
      forall i | 0 <= i < |b| ensures b[i] == Fine { assert (a + b)[|a| + i] == Fine; }
    }
  }

  ghost predicate LinksSound(w: World, path: Path) {
    forall l :: l in Links(LinesOf(w, path)) ==> Resolves(w, path, l.target)
  }

  lemma LinksFine(w: World, path: Path)
    ensures AllFine(VerdictsOn(w, path)) <==> LinksSound(w, path)
  {
    var links := Links(LinesOf(w, path));
    var vs := LinkVerdicts(w, path, links);
    if AllFine(vs) {
      forall l | l in links ensures Resolves(w, path, l.target) {
        var i :| 0 <= i < |links| && links[i] == l;
        assert vs[i] == Fine;
      }
    }
  }

  lemma FileSoundByLinks(w: World, path: Path)
    requires Readable(w, path)
    ensures FileSound(w, path) <==> LinksSound(w, path)
  {
    var lines := LinesOf(w, path);
    if FileSound(w, path) {
      forall l | l in Links(lines) ensures Resolves(w, path, l.target) { LinksAreVisible(lines, l); }
    }
    if LinksSound(w, path) {
      forall i, t | 0 <= i < |lines| && Visible(lines, i) && t in lines[i].targets ensures Resolves(w, path, t) {
        LinksAreVisible(lines, Link(i + 1, t));
        assert Resolves(w, path, Link(i + 1, t).target);
      }
    }
  }

  ghost predicate EachFine(vss: seq<seq<Verdict>>) {
    forall i :: 0 <= i < |vss| ==> AllFine(vss[i])
  }

  lemma {:induction false} FlattenFine(vss: seq<seq<Verdict>>)
    ensures AllFine(Flatten(vss)) <==> EachFine(vss)
  {
    if vss != [] {
      var rest, last := vss[..|vss| - 1], vss[|vss| - 1];
      FlattenFine(rest);
      AllFineConcat(Flatten(rest), last);
      EachFineAppend(rest, last);
      assert vss == rest + [last];
    }
  }

  lemma EachFineAppend(vss: seq<seq<Verdict>>, vs: seq<Verdict>)
    ensures EachFine(vss + [vs]) <==> EachFine(vss) && AllFine(vs)
  {
    var more := vss + [vs];
    if EachFine(more) {
      forall i | 0 <= i < |vss| ensures AllFine(vss[i]) { assert more[i] == vss[i]; }
      assert more[|vss|] == vs;
    }
  }

  lemma ReadsFine(w: World, files: seq<Path>)
    ensures AllFine(ReadVerdicts(w, files)) <==> forall i :: 0 <= i < |files| ==> Readable(w, files[i])
  {
    var vs := ReadVerdicts(w, files);
    if AllFine(vs) {
      forall i | 0 <= i < |files| ensures Readable(w, files[i]) { assert vs[i] == Fine; }
    }
  }

  lemma RunbookFine(w: World)
    ensures AllFine(RunbookVerdicts(w)) <==> RulesSound(w)
  {
    if w.rules.Some? {
      var rules := w.rules.value;
      var first := [if Readable(w, w.runbook) then Fine else Raises];
      var vs := RuleVerdicts(w, rules);
      AllFineConcat(first, vs);
      assert AllFine(first) <==> first[0] == Fine;
      if AllFine(vs) {
        forall i | 0 <= i < |rules| && rules[i].Some?
          ensures StripHashes(rules[i].value) in AnchorsOf(w, w.runbook)
        {
          assert vs[i] == Fine;
        }
      }
    }
  }

  lemma SucceedsIffSound(w: World)
    ensures After(Exit([]), Verdicts(w)) == Exit([]) <==> Sound(w)
  {
    AfterOnlyGrows(Exit([]), Verdicts(w));
    AllFineConcat(ReadVerdicts(w, w.files) + FileVerdicts(w, w.files), RunbookVerdicts(w));
    AllFineConcat(ReadVerdicts(w, w.files), FileVerdicts(w, w.files));
    ReadsFine(w, w.files);
    FlattenFine(PerFile(w, w.files));
    RunbookFine(w);
    FilesSound(w);
  }

  lemma FilesSound(w: World)
    ensures (forall i :: 0 <= i < |w.files| ==> FileSound(w, w.files[i]))
       <==> (forall i :: 0 <= i < |w.files| ==> Readable(w, w.files[i])) && EachFine(PerFile(w, w.files))
  {
    forall i | 0 <= i < |w.files| && Readable(w, w.files[i])
      ensures FileSound(w, w.files[i]) <==> AllFine(VerdictsOn(w, w.files[i]))
    {
      FileSoundByLinks(w, w.files[i]);
      LinksFine(w, w.files[i]);
    }
    assert forall i :: 0 <= i < |w.files| ==> PerFile(w, w.files)[i] == VerdictsOn(w, w.files[i]);
  }
}
