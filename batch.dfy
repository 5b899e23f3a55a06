/**
 * The per-folder driver of imgres.py: for each folder in the dictionary's
 * order, probe every file, optionally ask for confirmation, then resize file
 * by file, counting the resize steps that raise and carrying on after them.
 * The resize command is an oracle from a command to what `subprocess.call`
 * does with it: return an exit status, or raise.
 */
module Batch {
  import opened Wrappers
  import opened Probe
  import opened Resize
  import opened Confirmation
  import opened Grouping

  /** What the question asked before resizing a folder reads as. */
  const ConfirmQuestion: string := "Do you really want to resize listed images?"

  /** The outcome of `subprocess.call`: an exit status, or an exception. */
  datatype CallResult = Exited(status: int) | Raised

  /** What happened to one file in the resize loop. */
  datatype Action = Unchanged | Resized(command: Command, call: CallResult)

  /**
   * One pass of the resize loop, with the position and total it reports
   * ("pos/total") and the size probed for the file.
   */
  datatype Step = Step(folder: string, pos: nat, total: nat, path: string, dims: Dims, action: Action)

  /** How a run ends. */
  datatype Halt =
    | Finished                                        // every folder was handled
    | Declined(folder: string)                        // the user said no: sys.exit()
    | ProbeCrashed(folder: string, failure: ProbeFailure)  // uncaught probe error
    | InputEnded(folder: string)                      // input() hit end of input

  /** A run: how it ended, the resize steps taken, the exception count, the answer lines read. */
  datatype Run = Run(halt: Halt, steps: seq<Step>, exceptions: nat, answersUsed: nat)

  /** The limit on the larger dimension, and whether `-c` was given. */
  datatype Settings = Settings(limit: int, confirmation: bool)

  /** The resize step for the file at index `i` of a folder. */
  function StepFor(folder: string, files: seq<string>, sizes: seq<Dims>, i: nat, limit: int,
                   resize: Command -> CallResult): Step
    requires |sizes| == |files| && i < |files|
  {
    var action := match Decide(sizes[i], limit)
      case None => Unchanged
      case Some(axis) => var c := Convert(files[i], axis, limit); Resized(c, resize(c));
    Step(folder, i + 1, |files|, files[i], sizes[i], action)
  }

  /** The resize steps of one folder, one per file, in list order. */
  function ResizeSteps(folder: string, files: seq<string>, sizes: seq<Dims>, limit: int,
                       resize: Command -> CallResult): (steps: seq<Step>)
    requires |sizes| == |files|
    ensures |steps| == |files|
  {
    seq(|files|, i requires 0 <= i < |files| => StepFor(folder, files, sizes, i, limit, resize))
  }

  /** Whether a step's body raised. */
  predicate StepRaised(st: Step) {
    st.action.Resized? && st.action.call.Raised?
  }

  /** The number of steps whose body raised. */
  function Failures(steps: seq<Step>): nat
    decreases |steps|
  {
    if steps == [] then 0
    else Failures(steps[..|steps| - 1]) + if StepRaised(steps[|steps| - 1]) then 1 else 0
  }

  lemma {:induction false} FailuresAppend(a: seq<Step>, b: seq<Step>)
    ensures Failures(a + b) == Failures(a) + Failures(b)
    decreases |b|
  {
    if b == [] {
      assert a + b == a;
    } else {
      assert (a + b)[..|a + b| - 1] == a + b[..|b| - 1];
      FailuresAppend(a, b[..|b| - 1]);
    }
  }

  /** At most one exception per step. */
  lemma {:induction false} FailuresBound(steps: seq<Step>)
    ensures Failures(steps) <= |steps|
    ensures Failures(steps) == |steps| <==> forall i :: 0 <= i < |steps| ==> StepRaised(steps[i])
    ensures Failures(steps) == 0 <==> forall i :: 0 <= i < |steps| ==> !StepRaised(steps[i])
    decreases |steps|
  {
    if steps != [] {
      var init := steps[..|steps| - 1];
      FailuresBound(init);
      assert forall i :: 0 <= i < |init| ==> init[i] == steps[i];
    }
  }

  /**
   * The resize loop of one folder: for each index, resize when the larger
   * side exceeds the limit, pinning the width when it is the strictly
   * longer side; a step that raises adds one to the exception count and the
   * loop goes on with the next file.
   */
  method ResizeFolder(folder: string, files: seq<string>, sizes: seq<Dims>, limit: int,
                      resize: Command -> CallResult, exceptionCount: nat)
    returns (steps: seq<Step>, newCount: nat)
    requires |sizes| == |files|
    ensures steps == ResizeSteps(folder, files, sizes, limit, resize)
    ensures newCount == exceptionCount + Failures(steps)
  {
    steps := [];
    newCount := exceptionCount;
    for i := 0 to |files|
      invariant steps == ResizeSteps(folder, files, sizes, limit, resize)[..i]
      invariant newCount == exceptionCount + Failures(steps)
    {
      var maxDim := MaxDim(sizes[i]);
      var f := files[i];
      var action := Unchanged;
      if maxDim > limit {
        var axis := if sizes[i].w > sizes[i].h then Width else Height;
        var command := Convert(f, axis, limit);
        var call := resize(command);
        if call.Raised? {
          newCount := newCount + 1;
        }
        action := Resized(command, call);
      }
      var st := Step(folder, i + 1, |files|, f, sizes[i], action);
      assert st == StepFor(folder, files, sizes, i, limit, resize);
      assert (steps + [st])[..i] == steps;
      steps := steps + [st];
    }
  }

  /** What handling one folder leads to, and how many answer lines it read. */
  datatype Visit = Proceed(steps: seq<Step>, used: nat) | Stop(halt: Halt, used: nat)

  /**
   * One folder: an empty one is skipped; otherwise all its files are probed
   * first, and a failed probe ends the run; with confirmation on, a "no"
   * ends the run, as does the end of input; otherwise every file gets its
   * resize step.
   */
  function VisitFolder(folder: string, list: seq<string>, s: Settings, answers: seq<string>,
                       measure: Measure, resize: Command -> CallResult): (v: Visit)
    ensures v.used <= |answers|
  {
    if list == [] then Proceed([], 0)
    else match ProbeAll(list, measure)
      case Err(failure) => Stop(ProbeCrashed(folder, failure), 0)
      case Ok(sizes) =>
        var reply := if s.confirmation then ConfirmSpec(answers, true) else Some(true);
        var used := if s.confirmation then AnswersRead(answers) else 0;
        if reply.None? then Stop(InputEnded(folder), used)
        else if !reply.value then Stop(Declined(folder), used)
        else Proceed(ResizeSteps(folder, list, sizes, s.limit, resize), used)
  }

  /** Every folder named in `order` is a key of `files`. */
  predicate Keyed(order: seq<string>, files: map<string, seq<string>>) {
    forall f :: f in order ==> f in files
  }

  /**
   * The run after the folders of `order`, in that order, each reading the
   * answer lines the previous ones left; `Finished` while no folder has
   * stopped it.
   */
  function RunOver(order: seq<string>, files: map<string, seq<string>>, s: Settings, answers: seq<string>,
                   measure: Measure, resize: Command -> CallResult): (r: Run)
    requires Keyed(order, files)
    ensures r.answersUsed <= |answers|
    decreases |order|
  {
    if order == [] then Run(Finished, [], 0, 0)
    else
      var r := RunOver(order[..|order| - 1], files, s, answers, measure, resize);
      if !r.halt.Finished? then r
      else
        var folder := order[|order| - 1];
        Advance(r, VisitFolder(folder, files[folder], s, answers[r.answersUsed..], measure, resize))
  }

  /** The run after one more folder has been handled. */
  function Advance(r: Run, v: Visit): Run {
    match v
    case Stop(halt, used) => Run(halt, r.steps, r.exceptions, r.answersUsed + used)
    case Proceed(steps, used) => Run(Finished, r.steps + steps, r.exceptions + Failures(steps), r.answersUsed + used)
  }

  lemma RunOverNext(order: seq<string>, k: nat, files: map<string, seq<string>>, s: Settings,
                    answers: seq<string>, measure: Measure, resize: Command -> CallResult, r: Run, v: Visit)
    requires Keyed(order, files) && k < |order|
    requires r == RunOver(order[..k], files, s, answers, measure, resize) && r.halt.Finished?
    requires v == VisitFolder(order[k], files[order[k]], s, answers[r.answersUsed..], measure, resize)
    ensures RunOver(order[..k + 1], files, s, answers, measure, resize) == Advance(r, v)
  {
    var prefix := order[..k + 1];
    assert |prefix| == k + 1 && prefix[k] == order[k] && prefix[..k] == order[..k];
    assert Keyed(prefix, files) by {
      forall f | f in prefix ensures f in files {
        assert f in order;
      }
    }
  }

  /** Once a folder has stopped the run, later folders change nothing. */
  lemma {:induction false} RunOverStops(order: seq<string>, n: nat, files: map<string, seq<string>>, s: Settings,
                                        answers: seq<string>, measure: Measure, resize: Command -> CallResult)
    requires Keyed(order, files) && n <= |order|
    requires !RunOver(order[..n], files, s, answers, measure, resize).halt.Finished?
    ensures RunOver(order, files, s, answers, measure, resize) == RunOver(order[..n], files, s, answers, measure, resize)
    decreases |order| - n
  {
    if n < |order| {
      assert order[..n + 1][..n] == order[..n];
      RunOverStops(order, n + 1, files, s, answers, measure, resize);
    } else {
      assert order[..n] == order;
    }
  }

  /**
   * The per-folder loop's state after folder `k`: a stop ends the whole run
   * there, and otherwise the folder's steps and their exceptions are added.
   */
  lemma FolderHandled(order: seq<string>, k: nat, files: map<string, seq<string>>, s: Settings,
                      answers: seq<string>, measure: Measure, resize: Command -> CallResult,
                      steps: seq<Step>, exceptions: nat, used: nat, v: Visit)
    requires Keyed(order, files) && k < |order|
    requires RunOver(order[..k], files, s, answers, measure, resize) == Run(Finished, steps, exceptions, used)
    requires v == VisitFolder(order[k], files[order[k]], s, answers[used..], measure, resize)
    ensures v.Stop? ==>
      RunOver(order, files, s, answers, measure, resize) == Run(v.halt, steps, exceptions, used + v.used)
    ensures v.Proceed? ==>
      RunOver(order[..k + 1], files, s, answers, measure, resize) ==
        Run(Finished, steps + v.steps, exceptions + Failures(v.steps), used + v.used)
  {
    var r := Run(Finished, steps, exceptions, used);
    RunOverNext(order, k, files, s, answers, measure, resize, r, v);
    if v.Stop? {
      RunOverStops(order, k + 1, files, s, answers, measure, resize);
    }
  }

  /** A prefix of a keyed order is keyed. */
  lemma KeyedPrefix(order: seq<string>, n: nat, files: map<string, seq<string>>)
    requires Keyed(order, files) && n <= |order|
    ensures Keyed(order[..n], files)
  {
    forall f | f in order[..n] ensures f in files {
      assert f in order;
    }
  }

  /**
   * A step reports its folder's file at its 1-based position, the size the
   * probe gave for that file, and the decision for that size: no command
   * when the larger side is within the limit, else the command pinning the
   * chosen side, with what the call did.
   */
  predicate StepSound(st: Step, files: map<string, seq<string>>, limit: int, measure: Measure,
                      resize: Command -> CallResult) {
    st.folder in files && st.total == |files[st.folder]| && 1 <= st.pos <= st.total &&
    st.path == files[st.folder][st.pos - 1] && measure(st.path) == Ok(st.dims) &&
    match Decide(st.dims, limit)
    case None => st.action == Unchanged
    case Some(axis) =>
      var c := Convert(st.path, axis, limit);
      st.action == Resized(c, resize(c))
  }

  /** The resize steps of a probed folder are sound, one per file, in order. */
  lemma ResizeStepsSound(folder: string, files: map<string, seq<string>>, limit: int, measure: Measure,
                         resize: Command -> CallResult)
    requires folder in files && ProbeAll(files[folder], measure).Ok?
    ensures var steps := ResizeSteps(folder, files[folder], ProbeAll(files[folder], measure).value, limit, resize);
      forall i :: 0 <= i < |steps| ==>
        steps[i].folder == folder && steps[i].pos == i + 1 && StepSound(steps[i], files, limit, measure, resize)
  {
    ProbeAllParallel(files[folder], measure);
  }

  /** Every step belongs to one of the folders of `order` and is sound. */
  predicate AllSound(steps: seq<Step>, order: seq<string>, files: map<string, seq<string>>, limit: int,
                     measure: Measure, resize: Command -> CallResult) {
    forall i :: 0 <= i < |steps| ==> steps[i].folder in order && StepSound(steps[i], files, limit, measure, resize)
  }

  /**
   * Every step of a run belongs to one of the run's folders and is sound:
   * probed file, 1-based position, and the strict-comparison decision.
   */
  lemma {:induction false} RunStepsSound(order: seq<string>, files: map<string, seq<string>>, s: Settings,
                                         answers: seq<string>, measure: Measure, resize: Command -> CallResult)
    requires Keyed(order, files)
    ensures AllSound(RunOver(order, files, s, answers, measure, resize).steps, order, files, s.limit, measure, resize)
    decreases |order|
  {
    if order != [] {
      var last := |order| - 1;
      var init := order[..last];
      KeyedPrefix(order, last, files);
      RunStepsSound(init, files, s, answers, measure, resize);
      var prev := RunOver(init, files, s, answers, measure, resize);
      var r := RunOver(order, files, s, answers, measure, resize);
      assert AllSound(prev.steps, init, files, s.limit, measure, resize);
      forall f | f in init ensures f in order {
      }
      assert AllSound(prev.steps, order, files, s.limit, measure, resize);
      if prev.halt.Finished? {
        var folder := order[last];
        var v := VisitFolder(folder, files[folder], s, answers[prev.answersUsed..], measure, resize);
        assert r == Advance(prev, v);
        if v.Proceed? && files[folder] != [] {
          var sizes := ProbeAll(files[folder], measure).value;
          assert v.steps == ResizeSteps(folder, files[folder], sizes, s.limit, resize);
          ResizeStepsSound(folder, files, s.limit, measure, resize);
          assert r.steps == prev.steps + v.steps;
          forall i | 0 <= i < |r.steps|
            ensures r.steps[i].folder in order && StepSound(r.steps[i], files, s.limit, measure, resize)
          {
            if i >= |prev.steps| {
              assert r.steps[i] == v.steps[i - |prev.steps|];
            } else {
              assert r.steps[i] == prev.steps[i];
            }
          }
        } else if v.Proceed? {
          assert v.steps == [];
          assert r.steps == prev.steps;
        }
      }
    }
  }

  /** The exception count is the number of steps whose body raised. */
  lemma {:induction false} RunExceptions(order: seq<string>, files: map<string, seq<string>>, s: Settings,
                                         answers: seq<string>, measure: Measure, resize: Command -> CallResult)
    requires Keyed(order, files)
    ensures var r := RunOver(order, files, s, answers, measure, resize);
      r.exceptions == Failures(r.steps)
    decreases |order|
  {
    if order != [] {
      var last := |order| - 1;
      KeyedPrefix(order, last, files);
      RunExceptions(order[..last], files, s, answers, measure, resize);
      var prev := RunOver(order[..last], files, s, answers, measure, resize);
      if prev.halt.Finished? {
        var folder := order[last];
        var v := VisitFolder(folder, files[folder], s, answers[prev.answersUsed..], measure, resize);
        if v.Proceed? {
          FailuresAppend(prev.steps, v.steps);
        }
      }
    }
  }

  /** Two step lists that raise at the same places count the same failures. */
  lemma {:induction false} FailuresAlike(a: seq<Step>, b: seq<Step>)
    requires |a| == |b| && forall i :: 0 <= i < |a| ==> StepRaised(a[i]) == StepRaised(b[i])
    ensures Failures(a) == Failures(b)
    decreases |a|
  {
    if a != [] {
      var n := |a| - 1;
      FailuresAlike(a[..n], b[..n]);
    }
  }

  /**
   * Only an exception from the resize call is counted: two resize commands
   * that raise on the same orders give runs that end the same way, read
   * the same answers, take as many steps and count the same exceptions,
   * whatever exit statuses they return.
   */
  lemma {:induction false} ExitStatusIgnored(order: seq<string>, files: map<string, seq<string>>, s: Settings,
                                             answers: seq<string>, measure: Measure,
                                             resize1: Command -> CallResult, resize2: Command -> CallResult)
    requires Keyed(order, files)
    requires forall c :: resize1(c).Raised? <==> resize2(c).Raised?
    ensures var r1 := RunOver(order, files, s, answers, measure, resize1);
      var r2 := RunOver(order, files, s, answers, measure, resize2);
      r1.halt == r2.halt && r1.answersUsed == r2.answersUsed &&
      |r1.steps| == |r2.steps| && r1.exceptions == r2.exceptions
    decreases |order|
  {
    if order != [] {
      var last := |order| - 1;
      KeyedPrefix(order, last, files);
      ExitStatusIgnored(order[..last], files, s, answers, measure, resize1, resize2);
      var p1 := RunOver(order[..last], files, s, answers, measure, resize1);
      var p2 := RunOver(order[..last], files, s, answers, measure, resize2);
      if p1.halt.Finished? {
        var folder := order[last];
        var v1 := VisitFolder(folder, files[folder], s, answers[p1.answersUsed..], measure, resize1);
        var v2 := VisitFolder(folder, files[folder], s, answers[p2.answersUsed..], measure, resize2);
        if v1.Proceed? && files[folder] != [] {
          var sizes := ProbeAll(files[folder], measure).value;
          FailuresAlike(v1.steps, v2.steps);
        }
      }
    }
  }

  /**
   * A resize command that never raises, whatever status it exits with,
   * leaves the exception count at zero.
   */
  lemma NonZeroExitNotCounted(order: seq<string>, files: map<string, seq<string>>, s: Settings,
                              answers: seq<string>, measure: Measure, resize: Command -> CallResult)
    requires Keyed(order, files)
    requires forall c :: resize(c).Exited?
    ensures RunOver(order, files, s, answers, measure, resize).exceptions == 0
  {
    var r := RunOver(order, files, s, answers, measure, resize);
    RunExceptions(order, files, s, answers, measure, resize);
    RunStepsSound(order, files, s, answers, measure, resize);
    FailuresBound(r.steps);
    forall i | 0 <= i < |r.steps| ensures !StepRaised(r.steps[i]) {
      assert StepSound(r.steps[i], files, s.limit, measure, resize);
    }
  }

  /** Without `-c` no answer is read and the run cannot end on one. */
  lemma {:induction false} NoConfirmationNoQuestions(order: seq<string>, files: map<string, seq<string>>, s: Settings,
                                                     answers: seq<string>, measure: Measure,
                                                     resize: Command -> CallResult)
    requires Keyed(order, files) && !s.confirmation
    ensures var r := RunOver(order, files, s, answers, measure, resize);
      r.answersUsed == 0 && !r.halt.Declined? && !r.halt.InputEnded?
    decreases |order|
  {
    if order != [] {
      var last := |order| - 1;
      KeyedPrefix(order, last, files);
      NoConfirmationNoQuestions(order[..last], files, s, answers, measure, resize);
      var prev := RunOver(order[..last], files, s, answers, measure, resize);
      if prev.halt.Finished? {
        var folder := order[last];
        var v := VisitFolder(folder, files[folder], s, answers[prev.answersUsed..], measure, resize);
        assert v.used == 0 && (v.Stop? ==> v.halt.ProbeCrashed?);
        assert RunOver(order, files, s, answers, measure, resize) == Advance(prev, v);
      }
    }
  }

  /** The number of files listed over the given folders. */
  function TotalFiles(order: seq<string>, files: map<string, seq<string>>): nat
    requires Keyed(order, files)
    decreases |order|
  {
    if order == [] then 0
    else
      var last := |order| - 1;
      KeyedPrefix(order, last, files);
      TotalFiles(order[..last], files) + |files[order[last]]|
  }

  /**
   * The resize steps of a folder handled to the end: one per file of its
   * list, in list order, with the probed sizes.
   */
  function FolderSteps(folder: string, list: seq<string>, limit: int, measure: Measure,
                       resize: Command -> CallResult): seq<Step> {
    match ProbeAll(list, measure)
    case Ok(sizes) => ResizeSteps(folder, list, sizes, limit, resize)
    case Err(_) => []
  }

  /** The steps of every folder of `order`, folder after folder. */
  function AllSteps(order: seq<string>, files: map<string, seq<string>>, limit: int, measure: Measure,
                    resize: Command -> CallResult): seq<Step>
    requires Keyed(order, files)
    decreases |order|
  {
    if order == [] then []
    else
      var last := |order| - 1;
      KeyedPrefix(order, last, files);
      AllSteps(order[..last], files, limit, measure, resize) + FolderSteps(order[last], files[order[last]], limit, measure, resize)
  }

  /** A folder after which the run goes on was probed in full and resized file by file. */
  lemma FolderFinished(folder: string, list: seq<string>, s: Settings, answers: seq<string>,
                       measure: Measure, resize: Command -> CallResult)
    requires VisitFolder(folder, list, s, answers, measure, resize).Proceed?
    ensures ProbeAll(list, measure).Ok?
    ensures VisitFolder(folder, list, s, answers, measure, resize).steps == FolderSteps(folder, list, s.limit, measure, resize)
    ensures |FolderSteps(folder, list, s.limit, measure, resize)| == |list|
  {
  }

  /** Every folder of `order` is probed without failure. */
  predicate Probed(order: seq<string>, files: map<string, seq<string>>, measure: Measure)
    requires Keyed(order, files)
  {
    forall f :: f in order ==> ProbeAll(files[f], measure).Ok?
  }

  /** When every folder is probed, there is one step per listed file. */
  lemma {:induction false} AllStepsCount(order: seq<string>, files: map<string, seq<string>>, limit: int,
                                         measure: Measure, resize: Command -> CallResult)
    requires Keyed(order, files) && Probed(order, files, measure)
    ensures |AllSteps(order, files, limit, measure, resize)| == TotalFiles(order, files)
    decreases |order|
  {
    if order != [] {
      var last := |order| - 1;
      KeyedPrefix(order, last, files);
      assert Probed(order[..last], files, measure) by {
        forall f | f in order[..last] ensures ProbeAll(files[f], measure).Ok? {
          assert f in order;
        }
      }
      AllStepsCount(order[..last], files, limit, measure, resize);
      assert ProbeAll(files[order[last]], measure).Ok?;
    }
  }

  /**
   * A run that finishes has probed every folder successfully and taken, in
   * the dictionary's order, each folder's resize steps.
   */
  lemma {:induction false} FinishedSteps(order: seq<string>, files: map<string, seq<string>>, s: Settings,
                                         answers: seq<string>, measure: Measure, resize: Command -> CallResult)
    requires Keyed(order, files)
    ensures RunOver(order, files, s, answers, measure, resize).halt.Finished? ==>
      RunOver(order, files, s, answers, measure, resize).steps == AllSteps(order, files, s.limit, measure, resize)
    decreases |order|
  {
    var r := RunOver(order, files, s, answers, measure, resize);
    if order != [] && r.halt.Finished? {
      var last := |order| - 1;
      var init := order[..last];
      var folder := order[last];
      KeyedPrefix(order, last, files);
      FinishedSteps(init, files, s, answers, measure, resize);
      var prev := RunOver(init, files, s, answers, measure, resize);
      assert prev.halt.Finished?;
      var rest := answers[prev.answersUsed..];
      FolderFinished(folder, files[folder], s, rest, measure, resize);
    }
  }

  /** A run that finishes has probed every folder without failure. */
  lemma {:induction false} FinishedProbed(order: seq<string>, files: map<string, seq<string>>, s: Settings,
                                          answers: seq<string>, measure: Measure, resize: Command -> CallResult)
    requires Keyed(order, files)
    ensures RunOver(order, files, s, answers, measure, resize).halt.Finished? ==> Probed(order, files, measure)
    decreases |order|
  {
    if order != [] && RunOver(order, files, s, answers, measure, resize).halt.Finished? {
      var last := |order| - 1;
      var init := order[..last];
      var folder := order[last];
      KeyedPrefix(order, last, files);
      FinishedProbed(init, files, s, answers, measure, resize);
      var prev := RunOver(init, files, s, answers, measure, resize);
      assert prev.halt.Finished?;
      FolderFinished(folder, files[folder], s, answers[prev.answersUsed..], measure, resize);
      forall f | f in order ensures ProbeAll(files[f], measure).Ok? {
        if f != folder {
          assert f in init;
        }
      }
    }
  }

  /**
   * A run that finishes has probed every folder successfully and taken, in
   * the dictionary's order, each folder's resize steps, which are one per
   * listed file in list order.
   */
  lemma FinishedCoversAll(order: seq<string>, files: map<string, seq<string>>, s: Settings,
                          answers: seq<string>, measure: Measure, resize: Command -> CallResult)
    requires Keyed(order, files)
    ensures var r := RunOver(order, files, s, answers, measure, resize);
      r.halt.Finished? ==>
        r.steps == AllSteps(order, files, s.limit, measure, resize) &&
        |r.steps| == TotalFiles(order, files) &&
        Probed(order, files, measure)
  {
    FinishedSteps(order, files, s, answers, measure, resize);
    FinishedProbed(order, files, s, answers, measure, resize);
    if RunOver(order, files, s, answers, measure, resize).halt.Finished? {
      AllStepsCount(order, files, s.limit, measure, resize);
    }
  }

  /**
   * A run that stops does so at a non-empty folder of the order, reached
   * with every earlier folder handled; it keeps the steps taken before that
   * folder, so none of the folder's files and none of the later folders'
   * is resized. A probe crash reports that folder's probe failure.
   */
  lemma {:induction false} HaltedSkipsRest(order: seq<string>, files: map<string, seq<string>>, s: Settings,
                                           answers: seq<string>, measure: Measure, resize: Command -> CallResult)
    requires Keyed(order, files)
    ensures var r := RunOver(order, files, s, answers, measure, resize);
      !r.halt.Finished? ==>
        r.halt.folder in files && files[r.halt.folder] != [] &&
        (r.halt.ProbeCrashed? ==> ProbeAll(files[r.halt.folder], measure) == Err(r.halt.failure)) &&
        (r.halt.Declined? || r.halt.InputEnded? ==> s.confirmation) &&
        exists k :: 0 <= k < |order| && order[k] == r.halt.folder &&
          StoppedAt(order, k, files, s, answers, measure, resize, r)
    decreases |order|
  {
    if order != [] {
      var last := |order| - 1;
      var init := order[..last];
      KeyedPrefix(order, last, files);
      HaltedSkipsRest(init, files, s, answers, measure, resize);
      var prev := RunOver(init, files, s, answers, measure, resize);
      var r := RunOver(order, files, s, answers, measure, resize);
      if !prev.halt.Finished? {
        assert r == prev;
        var k :| 0 <= k < |init| && init[k] == prev.halt.folder &&
          StoppedAt(init, k, files, s, answers, measure, resize, prev);
        assert init[..k] == order[..k];
        assert StoppedAt(order, k, files, s, answers, measure, resize, r);
      } else if !r.halt.Finished? {
        assert order[..last] == init;
        assert StoppedAt(order, last, files, s, answers, measure, resize, r);
      }
    }
  }

  /**
   * `r` stopped at `order[k]`: the folders before it all finished, and `r`
   * has their steps and nothing more.
   */
  predicate StoppedAt(order: seq<string>, k: nat, files: map<string, seq<string>>, s: Settings,
                      answers: seq<string>, measure: Measure, resize: Command -> CallResult, r: Run)
    requires Keyed(order, files) && k < |order|
  {
    KeyedPrefix(order, k, files);
    var before := RunOver(order[..k], files, s, answers, measure, resize);
    before.halt.Finished? && r.steps == before.steps && r.exceptions == before.exceptions
  }

  /**
   * The body of the per-folder loop for one folder: probe, confirm, resize,
   * with the exception count carried in and out.
   */
  method HandleFolder(folder: string, folderList: seq<string>, s: Settings, answers: seq<string>,
                      measure: Measure, resize: Command -> CallResult, exceptionCount: nat)
    returns (v: Visit, newCount: nat)
    ensures v == VisitFolder(folder, folderList, s, answers, measure, resize)
    ensures newCount == exceptionCount + if v.Proceed? then Failures(v.steps) else 0
  {
    newCount := exceptionCount;
    if |folderList| == 0 {
      return Proceed([], 0), newCount;
    }
    var probed := ProbeFolder(folderList, measure);
    if probed.Err? {
      return Stop(ProbeCrashed(folder, probed.error), 0), newCount;
    }
    var sizes := probed.value;
    var used := 0;
    if s.confirmation {
      var reply, n, _ := Confirm(Some(ConfirmQuestion), true, answers);
      used := n;
      if reply.None? {
        return Stop(InputEnded(folder), used), newCount;
      }
      if !reply.value {
        return Stop(Declined(folder), used), newCount;
      }
    }
    var steps;
    steps, newCount := ResizeFolder(folder, folderList, sizes, s.limit, resize, exceptionCount);
    return Proceed(steps, used), newCount;
  }

  /** The per-folder loop of the script over the dictionary's folders. */
  method ProcessFolders(g: Folders, s: Settings, answers: seq<string>, measure: Measure,
                        resize: Command -> CallResult) returns (run: Run)
    requires Keyed(g.order, g.files)
    ensures run == RunOver(g.order, g.files, s, answers, measure, resize)
  {
    var exceptionCount: nat := 0;
    var steps: seq<Step> := [];
    var used: nat := 0;
    for k := 0 to |g.order|
      invariant RunOver(g.order[..k], g.files, s, answers, measure, resize) == Run(Finished, steps, exceptionCount, used)
    {
      var folder := g.order[k];
      var v, newCount := HandleFolder(folder, g.files[folder], s, answers[used..], measure, resize, exceptionCount);
      FolderHandled(g.order, k, g.files, s, answers, measure, resize, steps, exceptionCount, used, v);
      if v.Stop? {
        return Run(v.halt, steps, exceptionCount, used + v.used);
      }
      steps := steps + v.steps;
      exceptionCount := newCount;
      used := used + v.used;
    }
    assert g.order[..|g.order|] == g.order;
    return Run(Finished, steps, exceptionCount, used);
  }

  /** Where the files come from: the current directory's listing, or a walk of the tree. */
  datatype Listing = Flat(entries: seq<string>) | Walked(walk: seq<WalkEntry>)

  /** The dictionary of folders the script builds from a listing. */
  function Grouped(listing: Listing, matches: string -> bool, isFile: string -> bool): Folders {
    match listing
    case Flat(entries) => Folders([Here], map[Here := Matching(entries, matches, isFile)])
    case Walked(walk) => GroupWalk(walk, matches, isFile)
  }

  /**
   * The whole script after option parsing: group the matching files by
   * folder, then run the per-folder loop over them with the probe command's
   * parsed output as the sizes.
   */
  method ResizeImages(listing: Listing, matches: string -> bool, isFile: string -> bool, s: Settings,
                      answers: seq<string>, probe: string -> ProbeReply, resize: Command -> CallResult)
    returns (run: Run)
    ensures var g := Grouped(listing, matches, isFile);
      Keyed(g.order, g.files) && run == RunOver(g.order, g.files, s, answers, Measured(probe), resize)
  {
    var g: Folders;
    match listing {
      case Flat(entries) =>
        g := GroupFlat(entries, matches, isFile);
        assert g.files == map[Here := Matching(entries, matches, isFile)];
      case Walked(walk) =>
        g := GroupRecursive(walk, matches, isFile);
        GroupWalkValid(walk, matches, isFile);
    }
    assert Keyed(g.order, g.files);
    run := ProcessFolders(g, s, answers, Measured(probe), resize);
  }
}
