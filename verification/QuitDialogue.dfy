/** What a quit request may end in, read off the user's answers and the outcome of the proxy restores. */
module QuitDialogue {
  import opened RuntimeModel
  import opened RuntimeSafety

  /** What one answer settles. */
  datatype Verdict = Approves | Blocks | Undecided

  function AnswerVerdict(a: Answer, restoreOnExit: bool): Verdict {
    match a
    case Cancel => Blocks
    case ExitAnyway(_) => Approves
    case Unrecognised => Undecided
    case Retry(restored, _) => if restored || !restoreOnExit then Approves else Undecided
  }

  /** Answer `k` is the first that settles the dialogue. */
  ghost predicate DecidedBy(answers: seq<Answer>, restoreOnExit: bool, k: nat) {
    && k < |answers|
    && AnswerVerdict(answers[k], restoreOnExit) != Undecided
    && forall j | 0 <= j < k :: AnswerVerdict(answers[j], restoreOnExit) == Undecided
  }

  /** The outcome of the dialogue when answer `k` settles it. */
  ghost predicate Settles(t: Tally, after: (Runtimes, Tally, bool), a: Answer, restoreOnExit: bool) {
    var v := AnswerVerdict(a, restoreOnExit);
    && after.2
    && after.1.approved == t.approved + (if v.Approves? then 1 else 0)
    && after.1.blocked == t.blocked + (if v.Blocks? then 1 else 0)
    && (v.Approves? ==> !IsCoreRunning(after.0))
    && (a.Retry? && restoreOnExit ==> after.1.restores > t.restores)
  }

  lemma {:induction false} DialogueDecided(r: Runtimes, t: Tally, restoreOnExit: bool, answers: seq<Answer>, k: nat)
    requires RuntimesOk(r) && DecidedBy(answers, restoreOnExit, k)
    ensures Settles(t, AskStep(r, t, restoreOnExit, answers), answers[k], restoreOnExit)
    decreases k
  {
    if k == 0 {
      match answers[0]
      case Cancel =>
      case ExitAnyway(i) => ShutdownVerdict(r, true, i);
      case Retry(restored, i) => ShutdownVerdict(r, true, i);
    } else {
      var rest := answers[1..];
      assert AnswerVerdict(answers[0], restoreOnExit) == Undecided;
      assert forall j | 0 <= j < k - 1 :: rest[j] == answers[j + 1];
      DialogueDecided(r, t, restoreOnExit, rest, k - 1);
    }
  }

  lemma {:induction false} DialogueOpen(r: Runtimes, t: Tally, restoreOnExit: bool, answers: seq<Answer>)
    requires forall k: nat :: !DecidedBy(answers, restoreOnExit, k)
    ensures AskStep(r, t, restoreOnExit, answers) == (r, t, false)
    decreases |answers|
  {
    if answers != [] {
      assert !DecidedBy(answers, restoreOnExit, 0);
      var rest := answers[1..];
      forall k: nat ensures !DecidedBy(rest, restoreOnExit, k) {
        assert !DecidedBy(answers, restoreOnExit, k + 1);
        assert forall j | 1 <= j < k + 1 && j <= |rest| :: answers[j] == rest[j - 1];
      }
      DialogueOpen(r, t, restoreOnExit, rest);
    }
  }

  /** Restores that work in the deciding answer: the retry's own, and that of the shutdown after it. */
  function RestoresIn(a: Answer, restoreOnExit: bool): nat {
    match a
    case Retry(_, i) => if restoreOnExit then 1 + (if i.restored then 1 else 0) else 0
    case _ => 0
  }

  /**
   What the dialogue does to the runtimes and the proxy: a cancel leaves everything as it was when the dialogue
   opened; an exit and a retry that works stop what runs; only a retry restores.
   */
  lemma {:induction false} DialogueEffects(r: Runtimes, t: Tally, restoreOnExit: bool, answers: seq<Answer>, k: nat)
    requires RuntimesOk(r) && DecidedBy(answers, restoreOnExit, k)
    ensures var (r', u, _) := AskStep(r, t, restoreOnExit, answers);
      && u.restores == t.restores + RestoresIn(answers[k], restoreOnExit)
      && (answers[k].Cancel? ==> r' == r)
      && (answers[k].ExitAnyway? ==> r' == ShutdownRuntimes(r, true, answers[k].exit))
      && (answers[k].Retry? ==> r' == ShutdownRuntimes(r, true, answers[k].again))
    decreases k
  {
    if k == 0 {
      match answers[0]
      case Cancel =>
      case ExitAnyway(i) =>
      case Retry(restored, i) => ShutdownVerdict(r, true, i);
    } else {
      var rest := answers[1..];
      assert AnswerVerdict(answers[0], restoreOnExit) == Undecided;
      assert forall j | 0 <= j < k - 1 :: rest[j] == answers[j + 1];
      DialogueEffects(r, t, restoreOnExit, rest, k - 1);
    }
  }

  ghost predicate Canceled(r: Runtimes, q: QuitInputs) {
    ConfirmShown(r, q) && !q.accepted
  }

  /** The first shutdown pass goes through: no restore is due, or it works. */
  ghost predicate FirstPassGoes(r: Runtimes, q: QuitInputs) {
    var shown := ConfirmShown(r, q);
    || (shown && !q.restoreProxy)
    || (shown && !q.stopRuntime && r.tun.Running?)
    || !q.restoreOnExit
    || q.first.restored
  }

  /** Without the dialogue: cancelled, passed at once, or blocked for want of a window to ask in. */
  lemma QuitAtOnce(r: Runtimes, t: Tally, q: QuitInputs)
    requires RuntimesOk(r)
    requires Canceled(r, q) || FirstPassGoes(r, q) || !q.hasDialog
    ensures var (r', u, returned) := QuitStep(r, t, q);
      var approves := !Canceled(r, q) && FirstPassGoes(r, q);
      && returned
      && u.approved == t.approved + (if approves then 1 else 0)
      && u.blocked == t.blocked + (if approves then 0 else 1)
      && (approves ==> || u.restores > t.restores || !q.restoreOnExit
                       || (ConfirmShown(r, q) && (!q.restoreProxy || (!q.stopRuntime && r'.tun.Running?))))
      && (approves && !(ConfirmShown(r, q) && !q.stopRuntime) ==> !IsCoreRunning(r'))
  {
    ShutdownVerdict(r, !ConfirmShown(r, q) || q.stopRuntime, q.first);
  }

  /** A declined quit blocks, and leaves every runtime and the proxy as they were. */
  lemma QuitDeclined(r: Runtimes, t: Tally, q: QuitInputs)
    requires Canceled(r, q)
    ensures QuitStep(r, t, q) == (r, t.(blocked := t.blocked + 1), true)
  {
  }

  /** The user is asked to confirm exactly while something runs, the setting is on and there is a window to ask in. */
  lemma ConfirmDecides(r: Runtimes, t: Tally, q: QuitInputs)
    ensures IsCoreRunning(r) && q.confirmExit && q.hasDialog && !q.accepted ==>
      QuitStep(r, t, q) == (r, t.(blocked := t.blocked + 1), true)
    ensures !IsCoreRunning(r) || !q.confirmExit || !q.hasDialog ==>
      QuitStep(r, t, q) == QuitStep(r, t, q.(accepted := !q.accepted, stopRuntime := !q.stopRuntime,
                                             restoreProxy := !q.restoreProxy))
  {
  }

  /** The first pass stops what runs unless the user deselected that, and only then leaves the runtimes alone. */
  lemma FirstPassRuntimes(r: Runtimes, q: QuitInputs)
    requires RuntimesOk(r)
    ensures var r' := ShutdownRuntimes(r, !ConfirmShown(r, q) || q.stopRuntime, q.first);
      && ((ConfirmShown(r, q) && !q.stopRuntime) || !IsCoreRunning(r) ==> r' == r)
      && (!(ConfirmShown(r, q) && !q.stopRuntime) && IsCoreRunning(r) ==> r' == StopStep(r, q.first.stop).0)
  {
  }

  /**
   When the first pass goes through, the runtimes are those of the pass, and exactly one restore works if one was
   due and did, none otherwise. Without a dialog a failed restore blocks over the same runtimes.
   */
  lemma QuitFirstPass(r: Runtimes, t: Tally, q: QuitInputs)
    requires RuntimesOk(r) && !Canceled(r, q) && (FirstPassGoes(r, q) || !q.hasDialog)
    ensures var (r', u, _) := QuitStep(r, t, q);
      var due := q.restoreOnExit && (ConfirmShown(r, q) ==> q.restoreProxy) && !r'.mode.TunSingBox?;
      && r' == ShutdownRuntimes(r, !ConfirmShown(r, q) || q.stopRuntime, q.first)
      && u.restores == t.restores + (if due && q.first.restored then 1 else 0)
  {
    ShutdownVerdict(r, !ConfirmShown(r, q) || q.stopRuntime, q.first);
  }

  /** A quit whose dialogue is cancelled changes nothing but what its first pass stopped. */
  lemma QuitCancelledLate(r: Runtimes, t: Tally, q: QuitInputs, k: nat)
    requires RuntimesOk(r) && !Canceled(r, q) && !FirstPassGoes(r, q) && q.hasDialog
    requires DecidedBy(q.answers, q.restoreOnExit, k) && q.answers[k].Cancel?
    ensures QuitStep(r, t, q) ==
      (ShutdownRuntimes(r, !ConfirmShown(r, q) || q.stopRuntime, q.first), t.(blocked := t.blocked + 1), true)
  {
    QuitAsks(r, t, q);
    var r' := ShutdownRuntimes(r, !ConfirmShown(r, q) || q.stopRuntime, q.first);
    DialogueDecided(r', t, q.restoreOnExit, q.answers, k);
    DialogueEffects(r', t, q.restoreOnExit, q.answers, k);
  }

  /** Otherwise the dialogue opens over the stopped runtimes, with nothing counted yet. */
  lemma QuitAsks(r: Runtimes, t: Tally, q: QuitInputs)
    requires RuntimesOk(r)
    requires !Canceled(r, q) && !FirstPassGoes(r, q) && q.hasDialog
    ensures var r' := ShutdownRuntimes(r, !ConfirmShown(r, q) || q.stopRuntime, q.first);
      RuntimesOk(r') && QuitStep(r, t, q) == AskStep(r', t, q.restoreOnExit, q.answers)
  {
    ShutdownVerdict(r, !ConfirmShown(r, q) || q.stopRuntime, q.first);
  }

  /**
   `requestQuit` returns exactly when the first pass settles it or some answer does; it then emits exactly
   one of its two signals, and approves exactly when the first pass goes through or the first decisive
   answer is an exit or a retry that restores.
   */
  lemma QuitVerdict(r: Runtimes, t: Tally, q: QuitInputs)
    requires RuntimesOk(r)
    ensures var (r', u, returned) := QuitStep(r, t, q);
      var asks := !Canceled(r, q) && !FirstPassGoes(r, q) && q.hasDialog;
      && (returned <==> !asks || exists k: nat :: DecidedBy(q.answers, q.restoreOnExit, k))
      && u.approved + u.blocked == t.approved + t.blocked + (if returned then 1 else 0)
      && u.approved >= t.approved && u.blocked >= t.blocked
      && (u.approved > t.approved <==>
          || (!Canceled(r, q) && FirstPassGoes(r, q))
          || (asks && exists k: nat :: DecidedBy(q.answers, q.restoreOnExit, k)
                                       && AnswerVerdict(q.answers[k], q.restoreOnExit).Approves?))
  {
    if Canceled(r, q) || FirstPassGoes(r, q) || !q.hasDialog {
      QuitAtOnce(r, t, q);
    } else {
      QuitAsks(r, t, q);
      var r' := ShutdownRuntimes(r, !ConfirmShown(r, q) || q.stopRuntime, q.first);
      if k: nat :| DecidedBy(q.answers, q.restoreOnExit, k) {
        DialogueDecided(r', t, q.restoreOnExit, q.answers, k);
        assert forall j: nat | DecidedBy(q.answers, q.restoreOnExit, j) :: j == k;
      } else {
        DialogueOpen(r', t, q.restoreOnExit, q.answers);
      }
    }
  }

  /**
   Approval means: in this very call a restore worked, or none was due (off, deselected, or a TUN session
   left running), or the user chose to exit anyway; and nothing runs unless the user deselected the stop.
   */
  lemma QuitApproval(r: Runtimes, t: Tally, q: QuitInputs)
    requires RuntimesOk(r) && QuitStep(r, t, q).1.approved > t.approved
    ensures var (r', u, _) := QuitStep(r, t, q);
      var shown := ConfirmShown(r, q);
      && (|| u.restores > t.restores
          || !q.restoreOnExit
          || (shown && !q.restoreProxy)
          || (shown && !q.stopRuntime && r'.tun.Running?)
          || exists k | 0 <= k < |q.answers| :: q.answers[k].ExitAnyway?)
      && (!(shown && !q.stopRuntime) ==> !IsCoreRunning(r'))
  {
    if Canceled(r, q) || FirstPassGoes(r, q) || !q.hasDialog {
      QuitAtOnce(r, t, q);
    } else {
      QuitVerdict(r, t, q);
      QuitAsks(r, t, q);
      var k: nat :| DecidedBy(q.answers, q.restoreOnExit, k) && AnswerVerdict(q.answers[k], q.restoreOnExit).Approves?;
      DialogueDecided(ShutdownRuntimes(r, !ConfirmShown(r, q) || q.stopRuntime, q.first),
                      t, q.restoreOnExit, q.answers, k);
    }
  }

  /** A quit for an update is always approved and always stops the runtime. */
  lemma QuitForUpdateVerdict(r: Runtimes, t: Tally, restoreOnExit: bool, i: ShutdownInputs)
    requires RuntimesOk(r)
    ensures var (r', u) := QuitForUpdateStep(r, t, restoreOnExit, i);
      && u.approved == t.approved + 1 && u.blocked == t.blocked && !IsCoreRunning(r')
      && u.restores == t.restores + (if restoreOnExit && i.restored then 1 else 0)
      && r' == (if IsCoreRunning(r) then StopStep(r, i.stop).0 else r)
  {
    ShutdownVerdict(r, true, i);
  }
}
