/** The worker that notices a replaced netrc file by its inode: how the inode it has recorded and the token it has set
    stay in step with a file that is replaced at any moment, and which replacements they survive. */
module InodePolling {

  type Token = string

  /** The netrc file as it stands. Replacing it gives another inode, new or reused; editing it in place keeps the inode. */
  datatype File = File(inode: nat, token: Token)

  datatype Phase = Idle | SawInode(inode: nat) | HasToken(inode: nat, token: Token) | TokenSet(inode: nat)

  datatype State = State(file: File, apiToken: Token, recorded: nat, phase: Phase)

  datatype Step =
    | Rotate(file: File)
    | Stat | StatFails
    | ReadToken | ReadFails
    | SetToken | SetFails
    | Record

  predicate Enabled(s: State, st: Step) {
    match st
    case Rotate(_) => true
    case Stat | StatFails => s.phase.Idle?
    case ReadToken | ReadFails => s.phase.SawInode?
    case SetToken | SetFails => s.phase.HasToken?
    case Record => s.phase.TokenSet?
  }

  function Do(s: State, st: Step): State
    requires Enabled(s, st)
  {
    match st
    case Rotate(f) => s.(file := f)
    case Stat => if s.file.inode == s.recorded then s else s.(phase := SawInode(s.file.inode))
    case ReadToken => s.(phase := HasToken(s.phase.inode, s.file.token))
    case SetToken => s.(apiToken := s.phase.token, phase := TokenSet(s.phase.inode))
    case Record => s.(recorded := s.phase.inode, phase := Idle)
    case StatFails | ReadFails | SetFails => s.(phase := Idle)
  }

  predicate Valid(s: State, steps: seq<Step>)
    decreases |steps|
  {
    steps == [] || (Enabled(s, steps[0]) && Valid(Do(s, steps[0]), steps[1..]))
  }

  function Exec(s: State, steps: seq<Step>): State
    requires Valid(s, steps)
    decreases |steps|
  {
    if steps == [] then s else Exec(Do(s, steps[0]), steps[1..])
  }

  /** At startup the token is read from the file, and only later the inode of what may be another file by then. */
  function Started(tokenFrom: File, inodeFrom: File): State {
    State(inodeFrom, tokenFrom.token, inodeFrom.inode, Idle)
  }

  predicate Agrees(s: State) {
    s.recorded == s.file.inode ==> s.apiToken == s.file.token
  }

  /** A change of the file that the worker's bookkeeping survives: it does not put a token other than the API client's
      under the recorded inode, nor one other than the token on its way under an inode that token is on its way to. */
  predicate Harmless(s: State, f: File) {
    && (f.inode == s.recorded ==> f.token == s.apiToken)
    && (s.phase.HasToken? && (f.inode == s.recorded || f.inode == s.phase.inode) ==> f.token == s.phase.token)
    && (s.phase.TokenSet? && f.inode == s.phase.inode ==> f.token == s.apiToken)
  }

  /** In particular, a file with an inode that the worker does not know is harmless, whatever its token. */
  lemma NewInodeIsHarmless(s: State, f: File)
    requires f.inode != s.recorded && (!s.phase.Idle? ==> f.inode != s.phase.inode)
    ensures Harmless(s, f)
  {
  }

  /** Every change of the file in the run is harmless where it happens. */
  predicate HarmlessRun(s: State, steps: seq<Step>)
    requires Valid(s, steps)
    decreases |steps|
  {
    steps == []
    || ((steps[0].Rotate? ==> Harmless(s, steps[0].file)) && HarmlessRun(Do(s, steps[0]), steps[1..]))
  }

  /** The file as it stands is one that the bookkeeping survives. */
  predicate Inv(s: State) { Harmless(s, s.file) }

  lemma {:induction false} RunKeepsInv(s: State, steps: seq<Step>)
    requires Inv(s) && Valid(s, steps) && HarmlessRun(s, steps)
    ensures Inv(Exec(s, steps))
    decreases |steps|
  {
    if steps != [] {
      RunKeepsInv(Do(s, steps[0]), steps[1..]);
    }
  }

  ghost predicate AlwaysAgrees(s: State) {
    forall steps :: Valid(s, steps) && HarmlessRun(s, steps) ==> Agrees(Exec(s, steps))
  }

  /** In every state, however changes of the file interleave with the stat, the read and the failures: if the recorded
      inode is the file's, the API client has the file's token. This holds of all runs of harmless changes exactly if the
      file whose token was read at startup and the one whose inode was recorded have the same token. */
  lemma PollingAgrees(tokenFrom: File, inodeFrom: File)
    ensures tokenFrom.token == inodeFrom.token <==>
            AlwaysAgrees(Started(tokenFrom, inodeFrom))
  {
    var s := Started(tokenFrom, inodeFrom);
    if tokenFrom.token == inodeFrom.token {
      forall steps | Valid(s, steps) && HarmlessRun(s, steps)
        ensures Agrees(Exec(s, steps))
      {
        RunKeepsInv(s, steps);
      }
    } else {
      var steps: seq<Step> := [];
      assert Valid(s, steps) && Exec(s, steps) == s && !Agrees(s);
    }
  }

  /** A change is harmless exactly if the agreement survives it until the file changes again, whatever the worker does. */
  lemma HarmlessIsExact(s: State, f: File)
    ensures Harmless(s, f) <==>
            forall steps :: Valid(Do(s, Rotate(f)), steps) && NoRotation(steps) ==> Agrees(Exec(Do(s, Rotate(f)), steps))
  {
    var s' := Do(s, Rotate(f));
    if Harmless(s, f) {
      forall steps | Valid(s', steps) && NoRotation(steps)
        ensures Agrees(Exec(s', steps))
      {
        NoRotationIsHarmless(s', steps);
        RunKeepsInv(s', steps);
      }
    } else {
      RestDisagrees(s');
    }
  }

  lemma RestDisagrees(s: State)
    requires !Inv(s)
    ensures exists steps :: Valid(s, steps) && NoRotation(steps) && !Agrees(Exec(s, steps))
  {
    if !Agrees(s) {
      assert Valid(s, []) && NoRotation([]) && Exec(s, []) == s;
    } else if s.phase.TokenSet? {
      var steps := [Record];
      assert steps[1..] == [];
      var s1 := Do(s, Record);
      assert Valid(s1, []) && Exec(s1, []) == s1;
      assert Valid(s, steps) && Exec(s, steps) == s1 && NoRotation(steps);
    } else if s.file.inode == s.recorded {
      var steps := [SetToken];
      assert steps[1..] == [];
      var s1 := Do(s, SetToken);
      assert Valid(s1, []) && Exec(s1, []) == s1;
      assert Valid(s, steps) && Exec(s, steps) == s1 && NoRotation(steps);
    } else {
      var steps := [SetToken, Record];
      assert steps[1..] == [Record] && steps[1..][1..] == [];
      var s1 := Do(s, SetToken);
      var s2 := Do(s1, Record);
      assert Valid(s2, []) && Exec(s2, []) == s2;
      assert Valid(s1, steps[1..]) && Exec(s1, steps[1..]) == s2;
      assert Valid(s, steps) && Exec(s, steps) == s2 && NoRotation(steps);
    }
  }

  lemma {:induction false} NoRotationIsHarmless(s: State, steps: seq<Step>)
    requires Valid(s, steps) && NoRotation(steps)
    ensures HarmlessRun(s, steps)
    decreases |steps|
  {
    if steps != [] {
      assert !steps[0].Rotate?;
      assert forall k :: 0 <= k < |steps[1..]| ==> steps[1..][k] == steps[k + 1];
      NoRotationIsHarmless(Do(s, steps[0]), steps[1..]);
    }
  }

  predicate NoRotation(steps: seq<Step>) {
    forall k :: 0 <= k < |steps| ==> !steps[k].Rotate?
  }

  /** If they differ, the worker never notices: until the file is replaced again, every poll ends at the stat. */
  lemma {:induction false} StaleStartIsNotNoticed(s: State, steps: seq<Step>)
    requires s.phase.Idle? && s.recorded == s.file.inode
    requires Valid(s, steps) && NoRotation(steps)
    ensures Exec(s, steps) == s
    decreases |steps|
  {
    if steps != [] {
      assert forall k :: 0 <= k < |steps[1..]| ==> steps[1..][k] == steps[k + 1];
      StaleStartIsNotNoticed(Do(s, steps[0]), steps[1..]);
    }
  }

  /** The next replacement repairs it: from any idle state, in agreement or not, agreement holds from then on. */
  lemma NextRotationRepairs(s: State, f: File, steps: seq<Step>)
    requires s.phase.Idle? && f.inode != s.recorded
    requires Valid(Do(s, Rotate(f)), steps) && HarmlessRun(Do(s, Rotate(f)), steps)
    ensures Agrees(Exec(Do(s, Rotate(f)), steps))
  {
    RunKeepsInv(Do(s, Rotate(f)), steps);
  }

  predicate Failing(st: Step) { st.StatFails? || st.ReadFails? || st.SetFails? }

  predicate NoSet(steps: seq<Step>) { forall k :: 0 <= k < |steps| ==> !steps[k].SetToken? }

  /** Every step of a poll may fail, and the file may change at any moment. */
  lemma AnyStepMayFail(s: State, f: File)
    ensures Enabled(s, Rotate(f))
    ensures s.phase.Idle? ==> Enabled(s, StatFails)
    ensures s.phase.SawInode? ==> Enabled(s, ReadFails)
    ensures s.phase.HasToken? ==> Enabled(s, SetFails)
  {
  }

  /** A poll that fails, at whatever step, leaves the worker idle with its token and its record as they were, however the
      file changes meanwhile. */
  lemma FailedPollChangesNothing(s: State, steps: seq<Step>)
    requires s.phase.Idle? && Valid(s, steps) && NoSet(steps)
    requires steps != [] && Failing(steps[|steps| - 1])
    ensures Exec(s, steps) == s.(file := Exec(s, steps).file)
  {
    NothingBeforeSet(s, steps);
    EndsIdle(s, steps);
  }

  lemma {:induction false} NothingBeforeSet(s: State, steps: seq<Step>)
    requires Valid(s, steps) && NoSet(steps) && !s.phase.TokenSet?
    ensures var s' := Exec(s, steps);
            s'.apiToken == s.apiToken && s'.recorded == s.recorded && !s'.phase.TokenSet?
    decreases |steps|
  {
    if steps != [] {
      assert !steps[0].SetToken?;
      assert forall k :: 0 <= k < |steps[1..]| ==> steps[1..][k] == steps[k + 1];
      NothingBeforeSet(Do(s, steps[0]), steps[1..]);
    }
  }

  lemma {:induction false} EndsIdle(s: State, steps: seq<Step>)
    requires Valid(s, steps) && steps != [] && Failing(steps[|steps| - 1])
    ensures Exec(s, steps).phase.Idle?
    decreases |steps|
  {
    if |steps| > 1 {
      assert steps[1..][|steps[1..]| - 1] == steps[|steps| - 1];
      EndsIdle(Do(s, steps[0]), steps[1..]);
    }
  }

  const POLL: seq<Step> := [Stat, ReadToken, SetToken, Record]

  /** A poll that nothing disturbs leaves the API client with the file's token and the file's inode recorded. */
  lemma UndisturbedPollCatchesUp(s: State)
    requires s.phase.Idle? && s.recorded != s.file.inode
    ensures Valid(s, POLL)
    ensures Exec(s, POLL) == s.(apiToken := s.file.token, recorded := s.file.inode)
  {
    var s1 := Do(s, Stat);
    var s2 := Do(s1, ReadToken);
    var s3 := Do(s2, SetToken);
    var s4 := Do(s3, Record);
    assert POLL[1..] == [ReadToken, SetToken, Record];
    assert POLL[1..][1..] == [SetToken, Record];
    assert POLL[1..][1..][1..] == [Record];
    assert Valid(s4, POLL[1..][1..][1..][1..]) && Exec(s4, POLL[1..][1..][1..][1..]) == s4;
    assert Valid(s3, POLL[1..][1..][1..]) && Exec(s3, POLL[1..][1..][1..]) == s4;
    assert Valid(s2, POLL[1..][1..]) && Exec(s2, POLL[1..][1..]) == s4;
  }

  /** A replacement between the stat and the read: the API client gets the new file's token, but the inode recorded is the
      old file's, so the next poll looks again. */
  lemma ReplacementDuringPoll(s: State, f: File)
    requires s.phase.Idle? && s.recorded != s.file.inode
    ensures Valid(s, [Stat, Rotate(f), ReadToken, SetToken, Record])
    ensures Exec(s, [Stat, Rotate(f), ReadToken, SetToken, Record])
            == s.(file := f, apiToken := f.token, recorded := s.file.inode)
  {
    var s1 := Do(s, Stat);
    var s2 := Do(s1, Rotate(f));
    var s3 := Do(s2, ReadToken);
    var s4 := Do(s3, SetToken);
    var s5 := Do(s4, Record);
    var run := [Stat, Rotate(f), ReadToken, SetToken, Record];
    assert run[1..] == [Rotate(f), ReadToken, SetToken, Record];
    assert run[1..][1..] == [ReadToken, SetToken, Record];
    assert run[1..][1..][1..] == [SetToken, Record];
    assert run[1..][1..][1..][1..] == [Record];
    assert run[1..][1..][1..][1..][1..] == [];
    assert Valid(s5, []) && Exec(s5, []) == s5;
    assert Valid(s4, [Record]) && Exec(s4, [Record]) == s5;
    assert Valid(s3, [SetToken, Record]) && Exec(s3, [SetToken, Record]) == s5;
    assert Valid(s2, [ReadToken, SetToken, Record]) && Exec(s2, [ReadToken, SetToken, Record]) == s5;
    assert Valid(s1, run[1..]) && Exec(s1, run[1..]) == s5;
  }
}
