/**
 * The command coordinator of `probcog.commands`: registries of control laws
 * and condition tests, the table of termination bindings, and the periodic
 * update that stops laws whose terminating test fired and reports the
 * status of every law.
 *
 * The concrete laws and tests are outside the model: a law is known by its
 * name, a test by nothing but its identity, `conditionMet()` becomes the set
 * of test ids that fire in a tick, and every `setRunning` call on a law is
 * recorded in the ghost log `runLog`.
 */
module Commands {
  import opened Util

  datatype Status = EXECUTING | FAILURE | SUCCESS | UNKNOWN

  /** Java's `Status.name()`. */
  function StatusName(s: Status): (n: string)
    ensures |n| == if s == EXECUTING then 9 else 7
  {
    match s
    case EXECUTING => "EXECUTING"
    case FAILURE => "FAILURE"
    case SUCCESS => "SUCCESS"
    case UNKNOWN => "UNKNOWN"
  }

  /** Different statuses are reported under different names. */
  lemma StatusNameInjective(s: Status, t: Status)
    ensures StatusName(s) == StatusName(t) ==> s == t
  {
    if s != t && |StatusName(s)| == |StatusName(t)| {
      assert StatusName(s)[0] != StatusName(t)[0];
    }
  }

  /** The coordinator's view of a control law: its `getName()`. */
  datatype ControlLaw = ControlLaw(name: string)

  /** The coordinator's view of a condition test; its verdict is an input to each tick. */
  datatype ConditionTest = ConditionTest(name: string)

  datatype ControlLawRecord = ControlLawRecord(controlLaw: ControlLaw, executionStatus: Status)

  /** One binding of a test: the law `id` to stop and the status it ends with. */
  datatype TerminationCondition = TerminationCondition(id: int, terminationStatus: Status)

  /** A `setRunning(running)` call made on the law registered under `lawId`. */
  datatype RunSignal = RunSignal(lawId: int, running: bool)

  /** One entry of the published `control_law_status_list_t`. */
  datatype ControlLawStatus = ControlLawStatus(id: int, name: string, status: string)

  datatype ControlLawStatusList = ControlLawStatusList(nstatuses: int, statuses: seq<ControlLawStatus>)

  // ---------------------------------------------------------------------
  // What a tick does, as functions of the registries

  /** `order` lists every element of `keys` exactly once: a map's key iteration. */
  ghost predicate Enumerates(order: seq<int>, keys: set<int>)
  {
    && (forall k :: k in order <==> k in keys)
    && (forall i, j :: 0 <= i < j < |order| ==> order[i] != order[j])
  }

  /** An enumeration of a set is exactly as long as the set is large. */
  lemma {:induction false} EnumerationSize(order: seq<int>, keys: set<int>)
    requires Enumerates(order, keys)
    ensures |order| == |keys|
    decreases |order|
  {
    if order != [] {
      var last := order[|order| - 1];
      var init := order[..|order| - 1];
      assert Enumerates(init, keys - {last}) by {
        forall k ensures k in init <==> k in keys - {last} {
          if k in init {
            var i :| 0 <= i < |init| && init[i] == k;
            assert order[i] == k;
          }
          if k in order && k != last {
            var i :| 0 <= i < |order| && order[i] == k;
            assert init[i] == k;
          }
        }
      }
      EnumerationSize(init, keys - {last});
    } else {
      assert forall k :: k in keys ==> k in order;
      assert keys == {};
    }
  }

  /** The bindings of test `testId`, empty when it has none. */
  function BindingsOf(bindings: map<int, seq<TerminationCondition>>, testId: int): seq<TerminationCondition>
  {
    if testId in bindings then bindings[testId] else []
  }

  /**
   * The bindings a tick applies, in the order they are applied: those of each
   * test in `order` that fires and has bindings, each test's list in order.
   */
  function FiredBindings(order: seq<int>, firing: set<int>, bindings: map<int, seq<TerminationCondition>>)
    : seq<TerminationCondition>
  {
    if order == [] then []
    else
      var key := order[|order| - 1];
      FiredBindings(order[..|order| - 1], firing, bindings) +
      (if key in firing && key in bindings then bindings[key] else [])
  }

  /**
   * The record table after one binding is applied: the bound law, if it is
   * registered, ends with the bound status; every other record is kept.
   */
  function Terminate(laws: map<int, ControlLawRecord>, t: TerminationCondition): (r: map<int, ControlLawRecord>)
    ensures r.Keys == laws.Keys
    ensures forall k :: k in laws && k != t.id ==> r[k] == laws[k]
    ensures t.id in laws ==> r[t.id] == ControlLawRecord(laws[t.id].controlLaw, t.terminationStatus)
  {
    if t.id in laws then laws[t.id := laws[t.id].(executionStatus := t.terminationStatus)] else laws
  }

  /**
   * The record table after applying `terms` in order. No key is added or
   * removed, and no law's `controlLaw` changes: only statuses do.
   */
  function ApplyTerminations(laws: map<int, ControlLawRecord>, terms: seq<TerminationCondition>)
    : (r: map<int, ControlLawRecord>)
    ensures r.Keys == laws.Keys
    ensures forall k :: k in laws ==> r[k].controlLaw == laws[k].controlLaw
  {
    if terms == [] then laws
    else Terminate(ApplyTerminations(laws, terms[..|terms| - 1]), terms[|terms| - 1])
  }

  /** The stop signals `terms` cause, one per binding, in order. */
  function StopSignals(terms: seq<TerminationCondition>): (r: seq<RunSignal>)
    ensures |r| == |terms|
  {
    if terms == [] then []
    else StopSignals(terms[..|terms| - 1]) + [RunSignal(terms[|terms| - 1].id, false)]
  }

  /** The bindings a tick applies are exactly the bindings of the tests in `order` that fire. */
  lemma {:induction false} FiredBindingsMembers(order: seq<int>, firing: set<int>,
                                               bindings: map<int, seq<TerminationCondition>>,
                                               t: TerminationCondition)
    ensures t in FiredBindings(order, firing, bindings) <==>
            exists i :: 0 <= i < |order| && order[i] in firing && t in BindingsOf(bindings, order[i])
  {
    if order != [] {
      var n := |order| - 1;
      var init := order[..n];
      FiredBindingsMembers(init, firing, bindings, t);
      if i :| 0 <= i < |order| && order[i] in firing && t in BindingsOf(bindings, order[i]) {
        if i < n {
          assert init[i] == order[i];
        }
      }
      if i :| 0 <= i < |init| && init[i] in firing && t in BindingsOf(bindings, init[i]) {
        assert order[i] == init[i];
      }
    }
  }

  /** A tick in which no listed test both fires and has bindings applies nothing. */
  lemma {:induction false} QuietTick(order: seq<int>, firing: set<int>, bindings: map<int, seq<TerminationCondition>>)
    requires forall i :: 0 <= i < |order| ==> order[i] !in firing || order[i] !in bindings
    ensures FiredBindings(order, firing, bindings) == []
  {
    if order != [] {
      QuietTick(order[..|order| - 1], firing, bindings);
    }
  }

  /** Applying a concatenation applies its parts one after the other. */
  lemma {:induction false} ApplyTerminationsAppend(laws: map<int, ControlLawRecord>,
                                                  a: seq<TerminationCondition>, b: seq<TerminationCondition>)
    ensures ApplyTerminations(laws, a + b) == ApplyTerminations(ApplyTerminations(laws, a), b)
    decreases |b|
  {
    if b == [] {
      assert a + b == a;
    } else {
      assert (a + b)[..|a + b| - 1] == a + b[..|b| - 1];
      ApplyTerminationsAppend(laws, a, b[..|b| - 1]);
    }
  }

  /** The signals of a concatenation are the signals of its parts, in order. */
  lemma {:induction false} StopSignalsAppend(a: seq<TerminationCondition>, b: seq<TerminationCondition>)
    ensures StopSignals(a + b) == StopSignals(a) + StopSignals(b)
    decreases |b|
  {
    if b == [] {
      assert a + b == a;
    } else {
      assert (a + b)[..|a + b| - 1] == a + b[..|b| - 1];
      StopSignalsAppend(a, b[..|b| - 1]);
    }
  }

  /** Applying `terms` after `applied` continues both the record table and the signal log. */
  lemma TerminationsStep(laws: map<int, ControlLawRecord>, log: seq<RunSignal>,
                         applied: seq<TerminationCondition>, terms: seq<TerminationCondition>)
    ensures ApplyTerminations(laws, applied + terms) == ApplyTerminations(ApplyTerminations(laws, applied), terms)
    ensures log + StopSignals(applied + terms) == (log + StopSignals(applied)) + StopSignals(terms)
  {
    ApplyTerminationsAppend(laws, applied, terms);
    StopSignalsAppend(applied, terms);
  }

  /** A law that no binding in `terms` names keeps its record. */
  lemma {:induction false} UnboundLawKept(laws: map<int, ControlLawRecord>, terms: seq<TerminationCondition>, k: int)
    requires k in laws
    requires forall j :: 0 <= j < |terms| ==> terms[j].id != k
    ensures ApplyTerminations(laws, terms)[k] == laws[k]
    ensures RunSignal(k, false) !in StopSignals(terms)
  {
    if terms != [] {
      var init := terms[..|terms| - 1];
      UnboundLawKept(laws, init, k);
      assert StopSignals(terms) == StopSignals(init) + [RunSignal(terms[|terms| - 1].id, false)];
    }
  }

  /**
   * The last binding that names a registered law decides its status: later
   * bindings of other laws leave it alone.
   */
  lemma {:induction false} LastBindingWins(laws: map<int, ControlLawRecord>, terms: seq<TerminationCondition>,
                                          i: nat, k: int)
    requires k in laws && i < |terms| && terms[i].id == k
    requires forall j :: i < j < |terms| ==> terms[j].id != k
    ensures ApplyTerminations(laws, terms)[k].executionStatus == terms[i].terminationStatus
    ensures RunSignal(k, false) in StopSignals(terms)
    decreases |terms|
  {
    var n := |terms| - 1;
    var init := terms[..n];
    assert StopSignals(terms) == StopSignals(init) + [RunSignal(terms[n].id, false)];
    if i < n {
      LastBindingWins(laws, init, i, k);
    }
  }

  /**
   * In a tick, a law that no firing test is bound to keeps its status and
   * gets no stop signal, whatever the other tests do.
   */
  lemma UntouchedByTick(laws: map<int, ControlLawRecord>, order: seq<int>, firing: set<int>,
                        bindings: map<int, seq<TerminationCondition>>, k: int)
    requires k in laws
    requires forall key, t :: key in order && key in firing && t in BindingsOf(bindings, key) ==> t.id != k
    ensures ApplyTerminations(laws, FiredBindings(order, firing, bindings))[k] == laws[k]
    ensures RunSignal(k, false) !in StopSignals(FiredBindings(order, firing, bindings))
  {
    var terms := FiredBindings(order, firing, bindings);
    forall j | 0 <= j < |terms| ensures terms[j].id != k {
      FiredBindingsMembers(order, firing, bindings, terms[j]);
    }
    UnboundLawKept(laws, terms, k);
  }

  /** The status entry a law's record yields. */
  function StatusEntry(id: int, record: ControlLawRecord): ControlLawStatus
  {
    ControlLawStatus(id, record.controlLaw.name, StatusName(record.executionStatus))
  }

  // ---------------------------------------------------------------------
  // The coordinator

  class CommandCoordinator {
    /** `controlLawIDCounter` and `conditionTestIDCounter`: static, so possibly shared with other coordinators. */
    const lawIds: IdCounter
    const testIds: IdCounter

    var controlLaws: map<int, ControlLawRecord>
    var conditionTests: map<int, ConditionTest>
    /** Condition test id to the laws it terminates, with their statuses. */
    var terminationConditions: map<int, seq<TerminationCondition>>

    /** Every `setRunning` call this coordinator has made, oldest first. */
    ghost var runLog: seq<RunSignal>

    ghost predicate Valid()
      reads this, lawIds, testIds
    {
      && lawIds != testIds
      && lawIds.Valid() && testIds.Valid()
      && (forall id :: id in controlLaws ==> id in lawIds.issued)
      && (forall id :: id in conditionTests ==> id in testIds.issued)
    }

    constructor (lawIds: IdCounter, testIds: IdCounter)
      requires lawIds != testIds && lawIds.Valid() && testIds.Valid()
      ensures Valid()
      ensures this.lawIds == lawIds && this.testIds == testIds
      ensures controlLaws == map[] && conditionTests == map[] && terminationConditions == map[]
      ensures runLog == []
    {
      this.lawIds := lawIds;
      this.testIds := testIds;
      controlLaws := map[];
      conditionTests := map[];
      terminationConditions := map[];
      runLog := [];
    }

    /**
     * `registerControlLaw`: takes the next law id, records the law as
     * EXECUTING and starts it. Until the counter wraps the id is new.
     */
    method RegisterControlLaw(controlLaw: ControlLaw) returns (id: int)
      requires Valid()
      modifies this, lawIds
      ensures Valid()
      ensures id == old(lawIds.id) && lawIds.issued == old(lawIds.issued) + [id]
      ensures controlLaws == old(controlLaws)[id := ControlLawRecord(controlLaw, EXECUTING)]
      ensures runLog == old(runLog) + [RunSignal(id, true)]
      ensures conditionTests == old(conditionTests) && terminationConditions == old(terminationConditions)
      ensures |old(lawIds.issued)| <= INT_MAX ==> id == |old(lawIds.issued)| && id !in old(controlLaws)
    {
      id := lawIds.NextId();
      controlLaws := controlLaws[id := ControlLawRecord(controlLaw, EXECUTING)];
      runLog := runLog + [RunSignal(id, true)];
    }

    /**
     * `destroyControlLaw`: removes the law's record; true when there was one.
     * The law is not stopped and bindings naming it stay in place.
     */
    method DestroyControlLaw(id: int) returns (removed: bool)
      requires Valid()
      modifies this
      ensures Valid()
      ensures removed <==> id in old(controlLaws)
      ensures controlLaws == old(controlLaws) - {id}
      ensures conditionTests == old(conditionTests) && terminationConditions == old(terminationConditions)
      ensures runLog == old(runLog)
    {
      removed := id in controlLaws;
      controlLaws := controlLaws - {id};
    }

    /** `registerConditionTest`: takes the next test id and records the test. */
    method RegisterConditionTest(conditionTest: ConditionTest) returns (id: int)
      requires Valid()
      modifies this, testIds
      ensures Valid()
      ensures id == old(testIds.id) && testIds.issued == old(testIds.issued) + [id]
      ensures conditionTests == old(conditionTests)[id := conditionTest]
      ensures controlLaws == old(controlLaws) && terminationConditions == old(terminationConditions)
      ensures runLog == old(runLog)
      ensures |old(testIds.issued)| <= INT_MAX ==> id == |old(testIds.issued)| && id !in old(conditionTests)
    {
      id := testIds.NextId();
      conditionTests := conditionTests[id := conditionTest];
    }

    /** `destroyConditionTest`: removes the test; true when there was one. Bindings stay. */
    method DestroyConditionTest(id: int) returns (removed: bool)
      requires Valid()
      modifies this
      ensures Valid()
      ensures removed <==> id in old(conditionTests)
      ensures conditionTests == old(conditionTests) - {id}
      ensures controlLaws == old(controlLaws) && terminationConditions == old(terminationConditions)
      ensures runLog == old(runLog)
    {
      removed := id in conditionTests;
      conditionTests := conditionTests - {id};
    }

    /**
     * `registerTerminationCondition`: appends the binding to the test's list,
     * creating the list first. Neither id is checked; duplicates are kept.
     */
    method RegisterTerminationCondition(testId: int, lawId: int, status: Status)
      requires Valid()
      modifies this
      ensures Valid()
      ensures terminationConditions ==
              old(terminationConditions)[testId := BindingsOf(old(terminationConditions), testId) +
                                                   [TerminationCondition(lawId, status)]]
      ensures controlLaws == old(controlLaws) && conditionTests == old(conditionTests)
      ensures runLog == old(runLog)
    {
      if testId !in terminationConditions {
        terminationConditions := terminationConditions[testId := []];
      }
      var conds := terminationConditions[testId];
      terminationConditions := terminationConditions[testId := conds + [TerminationCondition(lawId, status)]];
    }

    /** Every law bound to a registered test that fires is registered (asserted by the source). */
    ghost predicate BoundLawsRegistered(firing: set<int>)
      reads this
    {
      forall key, t :: key in conditionTests && key in firing && t in BindingsOf(terminationConditions, key) ==>
        t.id in controlLaws
    }

    /**
     * The inner loop of `UpdateTask.run` for one firing test: stop each
     * bound law and overwrite its status, in list order.
     */
    method StopBoundLaws(terms: seq<TerminationCondition>)
      requires forall j :: 0 <= j < |terms| ==> terms[j].id in controlLaws
      modifies this
      ensures controlLaws == ApplyTerminations(old(controlLaws), terms)
      ensures runLog == old(runLog) + StopSignals(terms)
      ensures conditionTests == old(conditionTests) && terminationConditions == old(terminationConditions)
    {
      var j := 0;
      while j < |terms|
        invariant 0 <= j <= |terms|
        invariant conditionTests == old(conditionTests) && terminationConditions == old(terminationConditions)
        invariant controlLaws == ApplyTerminations(old(controlLaws), terms[..j])
        invariant runLog == old(runLog) + StopSignals(terms[..j])
      {
        var term := terms[j];
        var record := controlLaws[term.id];
        runLog := runLog + [RunSignal(term.id, false)];
        controlLaws := controlLaws[term.id := record.(executionStatus := term.terminationStatus)];
        assert terms[..j + 1][..j] == terms[..j];
        j := j + 1;
      }
      assert terms[..|terms|] == terms;
    }

    /**
     * The first half of `UpdateTask.run`: for each registered test, in the
     * map's order `testOrder`, that fires and has bindings, stop every bound
     * law and overwrite its status, in list order.
     */
    method CheckTerminations(firing: set<int>, testOrder: seq<int>)
      requires Valid()
      requires Enumerates(testOrder, conditionTests.Keys)
      requires BoundLawsRegistered(firing)
      modifies this
      ensures Valid()
      ensures controlLaws == ApplyTerminations(old(controlLaws), FiredBindings(testOrder, firing, terminationConditions))
      ensures runLog == old(runLog) + StopSignals(FiredBindings(testOrder, firing, terminationConditions))
      ensures conditionTests == old(conditionTests) && terminationConditions == old(terminationConditions)
    {
      ghost var laws0, log0 := controlLaws, runLog;
      ghost var applied: seq<TerminationCondition> := [];
      var i := 0;
      while i < |testOrder|
        invariant 0 <= i <= |testOrder|
        invariant applied == FiredBindings(testOrder[..i], firing, terminationConditions)
        invariant conditionTests == old(conditionTests) && terminationConditions == old(terminationConditions)
        invariant controlLaws == ApplyTerminations(laws0, applied)
        invariant runLog == log0 + StopSignals(applied)
      {
        var key := testOrder[i];
        assert testOrder[..i + 1][..i] == testOrder[..i];
        if key in firing && key in terminationConditions {
          var terms := terminationConditions[key];
          assert key in conditionTests;
          forall j | 0 <= j < |terms| ensures terms[j].id in controlLaws {
            assert terms[j] in BindingsOf(terminationConditions, key);
          }
          StopBoundLaws(terms);
          TerminationsStep(laws0, log0, applied, terms);
          applied := applied + terms;
        } else {
          assert applied + [] == applied;
        }
        i := i + 1;
      }
      assert testOrder[..|testOrder|] == testOrder;
    }

    /**
     * The second half of `UpdateTask.run`: the status list, one entry per
     * registered law in the map's order `lawOrder`, with its id, name and
     * current status.
     */
    method StatusList(lawOrder: seq<int>) returns (sl: ControlLawStatusList)
      requires Enumerates(lawOrder, controlLaws.Keys)
      ensures sl.nstatuses == |controlLaws| == |sl.statuses| == |lawOrder|
      ensures forall i :: 0 <= i < |sl.statuses| ==>
                lawOrder[i] in controlLaws && sl.statuses[i] == StatusEntry(lawOrder[i], controlLaws[lawOrder[i]])
      ensures forall id :: id in controlLaws <==> exists i :: 0 <= i < |sl.statuses| && sl.statuses[i].id == id
      ensures forall i, j :: 0 <= i < j < |sl.statuses| ==> sl.statuses[i].id != sl.statuses[j].id
    {
      EnumerationSize(lawOrder, controlLaws.Keys);
      var nstatuses := |lawOrder|;
      var statuses := new ControlLawStatus[nstatuses];
      var idx := 0;
      while idx < nstatuses
        invariant 0 <= idx <= nstatuses
        invariant forall i :: 0 <= i < idx ==> statuses[i] == StatusEntry(lawOrder[i], controlLaws[lawOrder[i]])
      {
        var key := lawOrder[idx];
        statuses[idx] := StatusEntry(key, controlLaws[key]);
        idx := idx + 1;
      }
      sl := ControlLawStatusList(nstatuses, statuses[..]);
      forall id | id in controlLaws
        ensures exists i :: 0 <= i < |sl.statuses| && sl.statuses[i].id == id
      {
        var i :| 0 <= i < |lawOrder| && lawOrder[i] == id;
        assert sl.statuses[i].id == id;
      }
    }

    /**
     * One `UpdateTask.run` tick: apply the terminations of the tests that
     * fire, then report every law's status after that update.
     */
    method Tick(firing: set<int>, testOrder: seq<int>, lawOrder: seq<int>) returns (sl: ControlLawStatusList)
      requires Valid()
      requires Enumerates(testOrder, conditionTests.Keys)
      requires Enumerates(lawOrder, controlLaws.Keys)
      requires BoundLawsRegistered(firing)
      modifies this
      ensures Valid()
      ensures controlLaws == ApplyTerminations(old(controlLaws), FiredBindings(testOrder, firing, terminationConditions))
      ensures runLog == old(runLog) + StopSignals(FiredBindings(testOrder, firing, terminationConditions))
      ensures conditionTests == old(conditionTests) && terminationConditions == old(terminationConditions)
      ensures sl.nstatuses == |controlLaws| == |sl.statuses| == |lawOrder|
      ensures forall i :: 0 <= i < |sl.statuses| ==>
                lawOrder[i] in controlLaws && sl.statuses[i] == StatusEntry(lawOrder[i], controlLaws[lawOrder[i]])
    {
      CheckTerminations(firing, testOrder);
      sl := StatusList(lawOrder);
    }
  }

  /**
   * A walk through one law's life: a law and a test bound to it with
   * SUCCESS; the test fires; the law is stopped once and reported SUCCESS.
   */
  method TerminationScenario()
  {
    var lawIds := new IdCounter();
    var testIds := new IdCounter();
    var coordinator := new CommandCoordinator(lawIds, testIds);
    var law := coordinator.RegisterControlLaw(ControlLaw("FollowWall"));
    var test := coordinator.RegisterConditionTest(ConditionTest("DoorSeen"));
    assert law == 0 && test == 0;
    coordinator.RegisterTerminationCondition(test, law, SUCCESS);
    assert coordinator.terminationConditions[0] == [TerminationCondition(0, SUCCESS)];
    var sl := coordinator.Tick({0}, [0], [0]);
    assert FiredBindings([0], {0}, coordinator.terminationConditions) == [TerminationCondition(0, SUCCESS)];
    assert coordinator.controlLaws[0].executionStatus == SUCCESS;
    assert coordinator.runLog == [RunSignal(0, true), RunSignal(0, false)];
    assert sl.statuses == [ControlLawStatus(0, "FollowWall", "SUCCESS")];
  }
}
