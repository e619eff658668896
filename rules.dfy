/**
 * Job-spawning rules of api/rules.py: deciding, for a file newly added to a
 * container, which algorithms to queue.
 *
 * Documents are records whose optional keys are Options; the sessions and
 * projects collections are maps from id to document; shell-glob matching
 * (fnmatch, a library call) is the parameter `glob`.
 */
module Rules {
  import opened Wrappers

  /** Matches a file name against a shell glob pattern: glob(name, pattern). */
  type Glob = (string, string) -> bool

  /** A file attached to a container; every key may be missing. */
  datatype File = File(name: Option<string>, fileType: Option<string>, measurements: Option<seq<string>>)

  /** One match entry `[match_type, match_param]`. */
  datatype Match = Match(kind: string, param: string)

  /**
   * A rule: the algorithm to run and its two match lists. A missing "any" or
   * "all" list reads as the empty list, so the lists are plain sequences.
   */
  datatype Rule = Rule(alg: Option<string>, any: seq<Match>, all: seq<Match>)

  /** A container document as far as the rules look at it. */
  datatype Container = Container(
    session: Option<int>,
    project: Option<int>,
    rules: Option<seq<Rule>>,
    measurement: Option<string>,
    files: Option<seq<File>>)

  /** The two collections `GetRulesForContainer` reads. */
  datatype Db = Db(sessions: map<int, Container>, projects: map<int, Container>)

  /** Errors the rule code raises. */
  datatype RuleError =
    | MissingKey(key: string)
    | UnimplementedMatchType(kind: string)
    | MissingDocument(id: int)
    | HierarchyTooDeep

  const MatchTypes: seq<string> :=
    ["file.type", "file.name", "file.measurements", "container.measurement", "container.has-type"]

  /** Rules that always apply after the project's own. */
  const HardcodedRules: seq<Rule> := [
    Rule(Some("dicom_mr_classifier"), [], [Match("file.type", "dicom")]),
    Rule(Some("dcm_convert"), [], [Match("file.type", "dicom")]),
    Rule(Some("qa-report-fmri"), [], [Match("file.type", "nifti")])
  ]

  /**
   * "container.has-type": scan the container's files in order for one whose
   * measurements list holds `param`. Despite the name, the source tests the
   * measurements of each file, not its type; a file without a measurements
   * key raises once the scan reaches it.
   */
  function HasMeasurement(files: seq<File>, param: string): (r: Result<bool, RuleError>)
    ensures r.Err? ==> r == Err(MissingKey("measurements"))
  {
    if files == [] then Ok(false)
    else if files[0].measurements.None? then Err(MissingKey("measurements"))
    else if param in files[0].measurements.value then Ok(true)
    else HasMeasurement(files[1..], param)
  }

  /** With every file carrying measurements, the scan is an existence test. */
  lemma {:induction false} HasMeasurementExactly(files: seq<File>, param: string)
    requires forall i :: 0 <= i < |files| ==> files[i].measurements.Some?
    ensures HasMeasurement(files, param) ==
      Ok(exists i :: 0 <= i < |files| && param in files[i].measurements.value)
  {
    if files != [] {
      HasMeasurementExactly(files[1..], param);
      assert forall i :: 1 <= i < |files| ==> files[i] == files[1..][i - 1];
    }
  }

  /** Decide one match entry against a file and its container. */
  function EvalMatch(kind: string, param: string, file: File, c: Container, glob: Glob): (r: Result<bool, RuleError>)
    ensures r == Err(UnimplementedMatchType(kind)) <==> kind !in MatchTypes
    ensures kind == "file.type" ==> r == Ok(file.fileType == Some(param))
    ensures kind == "file.measurements" ==>
      r == Ok(file.measurements.Some? && param in file.measurements.value)
  {
    if kind == "file.type" then
      // A file without a type key does not match.
      Ok(file.fileType.Some? && file.fileType.value == param)
    else if kind == "file.name" then
      if file.name.None? then Err(MissingKey("name")) else Ok(glob(file.name.value, param))
    else if kind == "file.measurements" then
      // A file without a measurements key does not match.
      Ok(file.measurements.Some? && param in file.measurements.value)
    else if kind == "container.measurement" then
      if c.measurement.None? then Err(MissingKey("measurement")) else Ok(c.measurement.value == param)
    else if kind == "container.has-type" then
      if c.files.None? then Err(MissingKey("files")) else HasMeasurement(c.files.value, param)
    else
      Err(UnimplementedMatchType(kind))
  }

  /**
   * The "any" scan: the first entry that matches gives Ok(true), the first
   * entry that raises (before any match) gives its error, none gives Ok(false).
   */
  function FirstMatch(ms: seq<Match>, file: File, c: Container, glob: Glob): (r: Result<bool, RuleError>)
  {
    if ms == [] then Ok(false)
    else match EvalMatch(ms[0].kind, ms[0].param, file, c, glob)
      case Err(e) => Err(e)
      case Ok(true) => Ok(true)
      case Ok(false) => FirstMatch(ms[1..], file, c, glob)
  }

  /**
   * The "all" scan: the first entry that fails gives Ok(false), the first
   * entry that raises (before any failure) gives its error, else Ok(true).
   */
  function EveryMatch(ms: seq<Match>, file: File, c: Container, glob: Glob): (r: Result<bool, RuleError>)
  {
    if ms == [] then Ok(true)
    else match EvalMatch(ms[0].kind, ms[0].param, file, c, glob)
      case Err(e) => Err(e)
      case Ok(false) => Ok(false)
      case Ok(true) => EveryMatch(ms[1..], file, c, glob)
  }

  /** The decision `EvalRule` computes: a non-empty "any" list must match before "all" is looked at. */
  function RuleOutcome(rule: Rule, file: File, c: Container, glob: Glob): (r: Result<bool, RuleError>)
  {
    if rule.any == [] then EveryMatch(rule.all, file, c, glob)
    else match FirstMatch(rule.any, file, c, glob)
      case Err(e) => Err(e)
      case Ok(false) => Ok(false)
      case Ok(true) => EveryMatch(rule.all, file, c, glob)
  }

  /** Every entry of `ms` evaluates without raising. */
  ghost predicate Defined(ms: seq<Match>, file: File, c: Container, glob: Glob)
  {
    forall i :: 0 <= i < |ms| ==> EvalMatch(ms[i].kind, ms[i].param, file, c, glob).Ok?
  }

  ghost predicate Matches(m: Match, file: File, c: Container, glob: Glob)
  {
    EvalMatch(m.kind, m.param, file, c, glob) == Ok(true)
  }

  lemma {:induction false} FirstMatchExactly(ms: seq<Match>, file: File, c: Container, glob: Glob)
    requires Defined(ms, file, c, glob)
    ensures FirstMatch(ms, file, c, glob) == Ok(exists i :: 0 <= i < |ms| && Matches(ms[i], file, c, glob))
  {
    if ms != [] {
      assert forall i :: 1 <= i < |ms| ==> ms[i] == ms[1..][i - 1];
      FirstMatchExactly(ms[1..], file, c, glob);
    }
  }

  lemma {:induction false} EveryMatchExactly(ms: seq<Match>, file: File, c: Container, glob: Glob)
    requires Defined(ms, file, c, glob)
    ensures EveryMatch(ms, file, c, glob) == Ok(forall i :: 0 <= i < |ms| ==> Matches(ms[i], file, c, glob))
  {
    if ms != [] {
      assert forall i :: 1 <= i < |ms| ==> ms[i] == ms[1..][i - 1];
      EveryMatchExactly(ms[1..], file, c, glob);
    }
  }

  /** When no entry raises, a rule holds iff ("any" is empty or one of it matches) and all of "all" match. */
  lemma RuleOutcomeExactly(rule: Rule, file: File, c: Container, glob: Glob)
    requires Defined(rule.any, file, c, glob) && Defined(rule.all, file, c, glob)
    ensures RuleOutcome(rule, file, c, glob) == Ok(
      (rule.any == [] || exists i :: 0 <= i < |rule.any| && Matches(rule.any[i], file, c, glob)) &&
      (forall j :: 0 <= j < |rule.all| ==> Matches(rule.all[j], file, c, glob)))
  {
    FirstMatchExactly(rule.any, file, c, glob);
    EveryMatchExactly(rule.all, file, c, glob);
  }

  /** A rule with no match entries at all always holds. */
  lemma RuleOutcomeEmpty(rule: Rule, file: File, c: Container, glob: Glob)
    requires rule.any == [] && rule.all == []
    ensures RuleOutcome(rule, file, c, glob) == Ok(true)
  {
  }

  /**
   * A non-empty "any" list none of whose entries match makes the rule false,
   * whatever the "all" list holds (it is never evaluated, so it cannot raise).
   */
  lemma RuleOutcomeAnyMiss(rule: Rule, file: File, c: Container, glob: Glob)
    requires rule.any != []
    requires forall i :: 0 <= i < |rule.any| ==>
      EvalMatch(rule.any[i].kind, rule.any[i].param, file, c, glob) == Ok(false)
    ensures RuleOutcome(rule, file, c, glob) == Ok(false)
  {
    FirstMatchExactly(rule.any, file, c, glob);
  }

  /** Decide whether `rule` spawns a job for `file` in container `c`. */
  method EvalRule(rule: Rule, file: File, c: Container, glob: Glob) returns (r: Result<bool, RuleError>)
    ensures r == RuleOutcome(rule, file, c, glob)
  {
    var mustMatch := |rule.any| > 0;
    var hasMatch := false;
    var i := 0;
    while i < |rule.any|
      invariant 0 <= i <= |rule.any|
      invariant !hasMatch
      invariant FirstMatch(rule.any, file, c, glob) == FirstMatch(rule.any[i..], file, c, glob)
    {
      var m := EvalMatch(rule.any[i].kind, rule.any[i].param, file, c, glob);
      if m.Err? {
        return Err(m.error);
      }
      if m.value {
        hasMatch := true;
        break;
      }
      assert rule.any[i..][1..] == rule.any[i + 1..];
      i := i + 1;
    }
    assert hasMatch <==> FirstMatch(rule.any, file, c, glob) == Ok(true);
    if mustMatch && !hasMatch {
      return Ok(false);
    }
    var j := 0;
    while j < |rule.all|
      invariant 0 <= j <= |rule.all|
      invariant EveryMatch(rule.all, file, c, glob) == EveryMatch(rule.all[j..], file, c, glob)
    {
      var m := EvalMatch(rule.all[j].kind, rule.all[j].param, file, c, glob);
      if m.Err? {
        return Err(m.error);
      }
      if !m.value {
        return Ok(false);
      }
      assert rule.all[j..][1..] == rule.all[j + 1..];
      j := j + 1;
    }
    r := Ok(true);
  }

  /** What evaluating a list of rules queues, and the error that stopped it, if any. */
  datatype Spawned = Spawned(queued: seq<string>, error: Option<RuleError>)

  /**
   * Rules are tried in order; each that holds queues its algorithm. The first
   * rule that raises (or holds but has no "alg" key) stops the scan, keeping
   * the jobs already queued.
   */
  function Spawn(rules: seq<Rule>, file: File, c: Container, glob: Glob): (s: Spawned)
    ensures |s.queued| <= |rules|
  {
    if rules == [] then Spawned([], None)
    else match RuleOutcome(rules[0], file, c, glob)
      case Err(e) => Spawned([], Some(e))
      case Ok(false) => Spawn(rules[1..], file, c, glob)
      case Ok(true) =>
        if rules[0].alg.None? then Spawned([], Some(MissingKey("alg")))
        else
          var rest := Spawn(rules[1..], file, c, glob);
          Spawned([rules[0].alg.value] + rest.queued, rest.error)
  }

  /** Every queued name is the algorithm of a rule that holds. */
  lemma {:induction false} SpawnSound(rules: seq<Rule>, file: File, c: Container, glob: Glob, k: nat)
    requires k < |Spawn(rules, file, c, glob).queued|
    ensures exists j :: (0 <= j < |rules| &&
      rules[j].alg == Some(Spawn(rules, file, c, glob).queued[k]) &&
      RuleOutcome(rules[j], file, c, glob) == Ok(true))
  {
    var rest := Spawn(rules[1..], file, c, glob);
    if RuleOutcome(rules[0], file, c, glob) == Ok(false) {
      SpawnSound(rules[1..], file, c, glob, k);
      var j :| 0 <= j < |rules[1..]| && rules[1..][j].alg == Some(rest.queued[k]) &&
        RuleOutcome(rules[1..][j], file, c, glob) == Ok(true);
      assert rules[j + 1] == rules[1..][j];
    } else if k > 0 {
      SpawnSound(rules[1..], file, c, glob, k - 1);
      var j :| 0 <= j < |rules[1..]| && rules[1..][j].alg == Some(rest.queued[k - 1]) &&
        RuleOutcome(rules[1..][j], file, c, glob) == Ok(true);
      assert rules[j + 1] == rules[1..][j];
    }
  }

  /** How many of `rules` hold for the file. */
  function CountHolding(rules: seq<Rule>, file: File, c: Container, glob: Glob): (n: nat)
    ensures n <= |rules|
  {
    if rules == [] then 0
    else (if RuleOutcome(rules[0], file, c, glob) == Ok(true) then 1 else 0) + CountHolding(rules[1..], file, c, glob)
  }

  /** Without an error, every rule that holds has its algorithm queued. */
  lemma {:induction false} SpawnComplete(rules: seq<Rule>, file: File, c: Container, glob: Glob, j: nat)
    requires j < |rules| && Spawn(rules, file, c, glob).error.None?
    requires RuleOutcome(rules[j], file, c, glob) == Ok(true)
    ensures rules[j].alg.Some? && rules[j].alg.value in Spawn(rules, file, c, glob).queued
  {
    if j > 0 {
      assert rules[1..][j - 1] == rules[j];
      SpawnComplete(rules[1..], file, c, glob, j - 1);
    }
  }

  /** Without an error, exactly one job is queued per rule that holds. */
  lemma {:induction false} SpawnCount(rules: seq<Rule>, file: File, c: Container, glob: Glob)
    requires Spawn(rules, file, c, glob).error.None?
    ensures |Spawn(rules, file, c, glob).queued| == CountHolding(rules, file, c, glob)
  {
    if rules != [] {
      SpawnCount(rules[1..], file, c, glob);
    }
  }

  /** Evaluating `a + b` is evaluating `a`, then, if `a` raised nothing, `b`. */
  lemma {:induction false} SpawnAppend(a: seq<Rule>, b: seq<Rule>, file: File, c: Container, glob: Glob)
    ensures Spawn(a + b, file, c, glob) ==
      var sa := Spawn(a, file, c, glob);
      var sb := Spawn(b, file, c, glob);
      if sa.error.Some? then sa else Spawned(sa.queued + sb.queued, sb.error)
  {
    if a == [] {
      assert a + b == b;
    } else {
      var ab := a + b;
      assert ab[0] == a[0] && ab[1..] == a[1..] + b;
      SpawnAppend(a[1..], b, file, c, glob);
      var sb := Spawn(b, file, c, glob);
      var ra := Spawn(a[1..], file, c, glob);
      var rab := Spawn(a[1..] + b, file, c, glob);
      if RuleOutcome(a[0], file, c, glob) == Ok(true) && a[0].alg.Some? && ra.error.None? {
        var x := a[0].alg.value;
        assert Spawn(ab, file, c, glob) == Spawned([x] + rab.queued, rab.error);
        assert [x] + (ra.queued + sb.queued) == ([x] + ra.queued) + sb.queued;
      }
    }
  }

  /** A rule whose only entry is an "all" file-type match holds iff the file has that type. */
  lemma FileTypeRule(rule: Rule, fileType: string, file: File, c: Container, glob: Glob)
    requires rule.any == [] && rule.all == [Match("file.type", fileType)]
    ensures RuleOutcome(rule, file, c, glob) == Ok(file.fileType == Some(fileType))
  {
    var m := rule.all[0];
    assert EvalMatch(m.kind, m.param, file, c, glob) == Ok(file.fileType == Some(fileType));
    assert rule.all[1..] == [];
    assert EveryMatch(rule.all[1..], file, c, glob) == Ok(true);
  }

  /**
   * The hardcoded rules never raise: a DICOM file queues the classifier and
   * the converter, a NIfTI file the fMRI QA report, any other file nothing.
   */
  lemma HardcodedSpawn(file: File, c: Container, glob: Glob)
    ensures Spawn(HardcodedRules, file, c, glob) == Spawned(
      if file.fileType == Some("dicom") then ["dicom_mr_classifier", "dcm_convert"]
      else if file.fileType == Some("nifti") then ["qa-report-fmri"]
      else [], None)
  {
    var h := HardcodedRules;
    var isDicom := file.fileType == Some("dicom");
    var isNifti := file.fileType == Some("nifti");
    FileTypeRule(h[0], "dicom", file, c, glob);
    FileTypeRule(h[1], "dicom", file, c, glob);
    FileTypeRule(h[2], "nifti", file, c, glob);
    assert h[2..][1..] == [];
    assert Spawn(h[2..], file, c, glob) == Spawned(if isNifti then ["qa-report-fmri"] else [], None);
    assert h[1..][1..] == h[2..];
    assert Spawn(h[1..], file, c, glob) == Spawned(
      if isDicom then ["dcm_convert"] else if isNifti then ["qa-report-fmri"] else [], None);
  }

  /** A document with neither a session nor a project link: the walk stops at it. */
  predicate IsRoot(c: Container)
  {
    c.session.None? && c.project.None?
  }

  /**
   * Walk from a container up to its project (a session link is followed
   * before a project link) and return the project's rules, or [] when the
   * root has none. A link to a missing document raises. `fuel` bounds the
   * walk: a cyclic chain of links, which the source would follow until the
   * interpreter's recursion limit, ends in HierarchyTooDeep.
   */
  function GetRulesForContainer(db: Db, c: Container, fuel: nat): (r: Result<seq<Rule>, RuleError>)
    decreases fuel
  {
    if fuel == 0 then Err(HierarchyTooDeep)
    else if c.session.Some? then
      if c.session.value in db.sessions then GetRulesForContainer(db, db.sessions[c.session.value], fuel - 1)
      else Err(MissingDocument(c.session.value))
    else if c.project.Some? then
      if c.project.value in db.projects then GetRulesForContainer(db, db.projects[c.project.value], fuel - 1)
      else Err(MissingDocument(c.project.value))
    else Ok(if c.rules.Some? then c.rules.value else [])
  }

  /** More fuel never changes a walk that already reached its root. */
  lemma {:induction false} RulesFuelMonotone(db: Db, c: Container, fuel: nat, more: nat)
    requires GetRulesForContainer(db, c, fuel) != Err(HierarchyTooDeep) && fuel <= more
    ensures GetRulesForContainer(db, c, more) == GetRulesForContainer(db, c, fuel)
    decreases fuel
  {
    if c.session.Some? && c.session.value in db.sessions {
      RulesFuelMonotone(db, db.sessions[c.session.value], fuel - 1, more - 1);
    } else if c.session.None? && c.project.Some? && c.project.value in db.projects {
      RulesFuelMonotone(db, db.projects[c.project.value], fuel - 1, more - 1);
    }
  }

  /** The root document's own rules, [] when it has no "rules" key. */
  function OwnRules(root: Container): (rules: seq<Rule>)
  {
    if root.rules.Some? then root.rules.value else []
  }

  /**
   * An acquisition resolves through its session to that session's project:
   * its own project link, if any, is not consulted.
   */
  lemma AcquisitionRules(db: Db, acq: Container, fuel: nat)
    requires fuel >= 3
    requires acq.session.Some? && acq.session.value in db.sessions
    requires db.sessions[acq.session.value].session.None?
    requires db.sessions[acq.session.value].project.Some?
    requires db.sessions[acq.session.value].project.value in db.projects
    requires db.projects[db.sessions[acq.session.value].project.value].session.None?
    requires db.projects[db.sessions[acq.session.value].project.value].project.None?
    ensures GetRulesForContainer(db, acq, fuel) ==
      Ok(OwnRules(db.projects[db.sessions[acq.session.value].project.value]))
  {
    var session := db.sessions[acq.session.value];
    var project := db.projects[session.project.value];
    assert GetRulesForContainer(db, project, fuel - 2) == Ok(OwnRules(project));
    assert GetRulesForContainer(db, session, fuel - 1) == Ok(OwnRules(project));
  }

  /**
   * Queue a job for every rule that holds: the project's rules first, then
   * the hardcoded ones. Returns the algorithm names queued; `queued` is the
   * sequence of jobs handed to the queue, which on an error keeps what was
   * queued before the error was raised. The hardcoded rules are appended to
   * the list the walk returned; when `c` is itself the root and has a rules
   * list, that list is `c`'s own, so `updated` is the caller's document with
   * the hardcoded rules added to its rules.
   */
  method CreateJobs(db: Db, c: Container, file: File, glob: Glob, fuel: nat)
    returns (r: Result<seq<string>, RuleError>, queued: seq<string>, updated: Container)
    ensures GetRulesForContainer(db, c, fuel).Err? ==>
      r == Err(GetRulesForContainer(db, c, fuel).error) && queued == []
    ensures GetRulesForContainer(db, c, fuel).Ok? ==>
      var s := Spawn(GetRulesForContainer(db, c, fuel).value + HardcodedRules, file, c, glob);
      queued == s.queued && r == (if s.error.Some? then Err(s.error.value) else Ok(s.queued))
    ensures updated == (if GetRulesForContainer(db, c, fuel).Ok? && IsRoot(c) && c.rules.Some?
      then c.(rules := Some(c.rules.value + HardcodedRules)) else c)
  {
    queued, updated := [], c;
    var found := GetRulesForContainer(db, c, fuel);
    if found.Err? {
      return Err(found.error), queued, updated;
    }
    var rules := found.value;
    // The walk hands back the root document's own list when `c` is that root.
    var aliased := IsRoot(c) && c.rules.Some?;
    ghost var project := rules;
    assert aliased ==> project == c.rules.value;
    for h := 0 to |HardcodedRules|
      invariant rules == project + HardcodedRules[..h]
      invariant updated == if aliased then c.(rules := Some(rules)) else c
    {
      rules := rules + [HardcodedRules[h]];
      if aliased {
        updated := updated.(rules := Some(rules));
      }
    }
    assert HardcodedRules[..|HardcodedRules|] == HardcodedRules;
    assert updated == if aliased then c.(rules := Some(project + HardcodedRules)) else c;
    var k := 0;
    while k < |rules|
      invariant 0 <= k <= |rules|
      invariant Spawn(rules, file, c, glob).queued == queued + Spawn(rules[k..], file, c, glob).queued
      invariant Spawn(rules, file, c, glob).error == Spawn(rules[k..], file, c, glob).error
    {
      assert rules[k..][1..] == rules[k + 1..];
      var holds := EvalRule(rules[k], file, c, glob);
      if holds.Err? {
        return Err(holds.error), queued, updated;
      }
      if holds.value {
        if rules[k].alg.None? {
          return Err(MissingKey("alg")), queued, updated;
        }
        queued := queued + [rules[k].alg.value];
      }
      k := k + 1;
    }
    r := Ok(queued);
  }

  /**
   * Creating jobs twice for a file of a root project that has a rules list:
   * the second walk sees the hardcoded rules already appended once, so a
   * DICOM file queues the classifier and the converter twice.
   */
  lemma CreateJobsTwice(db: Db, c: Container, file: File, glob: Glob, fuel: nat)
    requires fuel >= 1 && IsRoot(c) && c.rules.Some?
    requires file.fileType == Some("dicom")
    ensures var updated := c.(rules := Some(c.rules.value + HardcodedRules));
      GetRulesForContainer(db, updated, fuel) == Ok(c.rules.value + HardcodedRules) &&
      (Spawn(c.rules.value, file, updated, glob).error.None? ==>
        Spawn(c.rules.value + HardcodedRules + HardcodedRules, file, updated, glob).queued ==
          Spawn(c.rules.value, file, updated, glob).queued +
          ["dicom_mr_classifier", "dcm_convert", "dicom_mr_classifier", "dcm_convert"])
  {
    var updated := c.(rules := Some(c.rules.value + HardcodedRules));
    var rs := c.rules.value;
    HardcodedSpawn(file, updated, glob);
    SpawnAppend(rs, HardcodedRules, file, updated, glob);
    SpawnAppend(rs + HardcodedRules, HardcodedRules, file, updated, glob);
  }
}
