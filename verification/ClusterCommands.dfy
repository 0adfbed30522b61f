/** Whole commands in the cluster. The life of a host is what its commands log and its environment does in between; all lives
    together, however they interleave, are a behaviour. */
module ClusterCommands {
  import opened Text
  import opened ClusterTopology
  import opened Keys
  import opened EnrollmentArtifact
  import opened HostDisk
  import opened ClusterProtocol
  import Stage
  import EnrollmentCreate
  import Finalize
  import R = Receipt

  // ---- The life of one host --------------------------------------------------------------------

  /** What one host knows of a step on its own disk; keys and signatures of others are not among it. */
  ghost predicate OwnStep(h: HostId, e: Event, d: Disk, d': Disk) {
    && e.host == h
    && match e
       case StageWrite(_, run) => Stage.Write(run, d, d')
       case FinalizeWrite(_, run, open) => Finalize.Write(run, open, d, d')
       case Environment(_) => Stage.SameRecords(d, d')
       case Mint(_, _, _) => false
  }

  /** The disks that a host has held, and what led from each to the next. */
  datatype Life = Life(disks: seq<Disk>, steps: seq<Event>)

  ghost predicate Lived(h: HostId, life: Life) {
    && |life.disks| == |life.steps| + 1
    && forall i | 0 <= i < |life.steps| :: OwnStep(h, life.steps[i], life.disks[i], life.disks[i + 1])
  }

  /** A crash is an end like any other. */
  lemma CrashedLife(h: HostId, life: Life, n: nat)
    requires Lived(h, life) && n < |life.disks|
    ensures Lived(h, Life(life.disks[..n + 1], life.steps[..n]))
  {
    hide OwnStep;
  }

  /** The log of a staging run, from where it began, is a life; a crash may end it anywhere. */
  lemma StageLogs(h: HostId, run: Stage.Run, before: seq<Disk>, after: seq<Disk>)
    requires Stage.Extends(run, before, after)
    ensures Lived(h, Life(after[|before| - 1..], seq(|after| - |before|, _ => StageWrite(h, run))))
  {
    hide Stage.Write;
  }

  lemma FinalizeLogs(h: HostId, run: Finalize.Run, open: bool, before: seq<Disk>, after: seq<Disk>)
    requires Finalize.Extends(run, open, before, after)
    ensures Lived(h, Life(after[|before| - 1..], seq(|after| - |before|, _ => FinalizeWrite(h, run, open))))
  {
    hide Finalize.Write;
  }

  /** One command after another, or after a change from outside. */
  lemma LifeGoesOn(h: HostId, first: Life, second: Life)
    requires Lived(h, first) && Lived(h, second) && first.disks[|first.disks| - 1] == second.disks[0]
    ensures Lived(h, Life(first.disks + second.disks[1..], first.steps + second.steps))
  {
    hide OwnStep;
    var both := Life(first.disks + second.disks[1..], first.steps + second.steps);
    forall i | 0 <= i < |both.steps| ensures OwnStep(h, both.steps[i], both.disks[i], both.disks[i + 1]) {
      if i < |first.steps| {
        assert OwnStep(h, first.steps[i], first.disks[i], first.disks[i + 1]);
      } else {
        assert OwnStep(h, second.steps[i - |first.steps|], second.disks[i - |first.steps|], second.disks[i - |first.steps| + 1]);
      }
    }
  }

  // ---- Interleaving ----------------------------------------------------------------------------

  type Lives = map<HostId, Life>

  /** One host takes the next step of its life, or one mints an enrollment. Nothing is said here of keys or signatures. */
  ghost predicate Turn(lives: Lives, s: System, at: map<HostId, nat>, e: Event, s': System, at': map<HostId, nat>) {
    if e.Mint? then at' == at && Step(s, e, s')
    else
      && e.host in lives && e.host in at
      && var life, k := lives[e.host], at[e.host];
         && k < |life.steps| && k + 1 < |life.disks| && e == life.steps[k]
         && s' == s.(disks := s.disks[e.host := life.disks[k + 1]])
         && at' == at[e.host := k + 1]
  }

  /** Every host stands where its life has come to. */
  ghost predicate Abreast(lives: Lives, s: System, at: map<HostId, nat>) {
    && s.disks.Keys == lives.Keys == at.Keys
    && forall h | h in lives :: at[h] < |lives[h].disks| && s.disks[h] == lives[h].disks[at[h]]
  }

  /** Any number of commands at once on any number of hosts, one at a time on each; a crashed one just stops. */
  ghost predicate Interleaved(states: seq<System>, events: seq<Event>, lives: Lives, at: seq<map<HostId, nat>>) {
    && |states| == |at| == |events| + 1
    && (forall h | h in lives :: Lived(h, lives[h]))
    && Init(states[0]) && Abreast(lives, states[0], at[0])
    && forall i | 0 <= i < |events| :: Turn(lives, states[i], at[i], events[i], states[i + 1], at[i + 1])
  }

  // ---- Ideal cryptography ----------------------------------------------------------------------

  predicate IsCommand(e: Event) { e.StageWrite? || e.FinalizeWrite? }

  /** The key that the run would store if it had to generate one. */
  function FreshOf(e: Event): Key
    requires IsCommand(e)
  {
    if e.StageWrite? then e.stage.freshKey else e.finalize.freshKey
  }

  function EnrollmentOf(e: Event): Option<Enrollment> { if e.StageWrite? then e.stage.enrollment else None }

  predicate Uses(e: Event, key: Key) {
    match e
    case StageWrite(_, run) => run.freshKey == key || run.signer == KeyDigestOf(key)
    case FinalizeWrite(_, run, _) => run.freshKey == key
    case _ => false
  }

  /** The host of this step puts a key where it had none. */
  predicate StoresKey(s: System, e: Event, s': System) {
    IsCommand(e) && e.host in s.disks && e.host in s'.disks && s'.disks[e.host].signer != s.disks[e.host].signer
  }

  /** Ideal key generation: until a generated key is stored, no command of another host is given it, to store or to pin. */
  ghost predicate KeysAreOwn(states: seq<System>, events: seq<Event>)
    requires |states| == |events| + 1
  {
    forall i, l | 0 <= l < i < |events| && StoresKey(states[i], events[i], states[i + 1]) && events[l].host != events[i].host ::
      !Uses(events[l], FreshOf(events[i]))
  }

  /** Ideal signatures, for the enrollments that the commands are given. */
  ghost predicate NeverForged(states: seq<System>, events: seq<Event>)
    requires |states| == |events| + 1
  {
    forall i | 0 <= i < |events| :: Unforged(states[i], EnrollmentOf(events[i]))
  }

  predicate FreshElsewhere(s: System, h: HostId, key: Key) { forall g | g in s.disks && g != h :: Without(s.disks[g], key) }

  predicate Without(d: Disk, key: Key) {
    d.signer != Some(key) && (d.receipt.Some? ==> d.receipt.value.signer != KeyDigestOf(key))
  }

  lemma StageKeepsKeyOut(run: Stage.Run, d: Disk, d': Disk, key: Key)
    requires Stage.Write(run, d, d') && Without(d, key) && run.freshKey != key && run.signer != KeyDigestOf(key)
    ensures Without(d', key)
  {
    hide Stage.Admits, R.Matches, R.Valid;
  }

  lemma FinalizeKeepsKeyOut(run: Finalize.Run, open: bool, d: Disk, d': Disk, key: Key)
    requires Finalize.Write(run, open, d, d') && Without(d, key) && run.freshKey != key
    ensures Without(d', key)
  {
    hide Finalize.Admits, Finalize.SubstrateReady, Finalize.UIDsKnown, R.Valid, Finalize.WipesData, Finalize.NewInstalled;
  }

  /** A step that is not given the key does not bring it to another host. */
  lemma StepKeepsKeyOut(s: System, e: Event, s': System, h: HostId, key: Key)
    requires Step(s, e, s') && FreshElsewhere(s, h, key) && (e.host != h ==> !Uses(e, key))
    ensures FreshElsewhere(s', h, key)
  {
    hide Stage.Write, Finalize.Write, EnrollmentCreate.MayMint, Without, Unforged;
    var g := e.host;
    if g != h {
      match e {
        case StageWrite(_, run) => StageKeepsKeyOut(run, s.disks[g], s'.disks[g], key);
        case FinalizeWrite(_, run, open) => FinalizeKeepsKeyOut(run, open, s.disks[g], s'.disks[g], key);
        case Mint(_, _, _) =>
        case Environment(_) => RecordsKeepKeyOut(s.disks[g], s'.disks[g], key);
      }
    }
  }

  lemma RecordsKeepKeyOut(d: Disk, d': Disk, key: Key)
    requires Stage.SameRecords(d, d') && Without(d, key)
    ensures Without(d', key)
  {
  }

  /** So a key that no other host was given is on no other host. */
  lemma {:induction false} KeyStaysOut(states: seq<System>, events: seq<Event>, i: nat, h: HostId, key: Key)
    requires |states| == |events| + 1 && i < |states| && Init(states[0])
    requires forall l | 0 <= l < i :: Step(states[l], events[l], states[l + 1])
    requires forall l | 0 <= l < i && events[l].host != h :: !Uses(events[l], key)
    ensures FreshElsewhere(states[i], h, key)
  {
    hide Step, Uses;
    if i > 0 {
      hide FreshElsewhere, Init;
      KeyStaysOut(states, events, i - 1, h, key);
      StepKeepsKeyOut(states[i - 1], events[i - 1], states[i], h, key);
    }
  }

  lemma StagedKeyHasNoPin(run: Stage.Run, d: Disk, d': Disk)
    requires HostSound(d) && Stage.Write(run, d, d') && d'.signer != d.signer
    ensures d.signer.None? && d.receipt.Some? && d.receipt.value.signer == NO_DIGEST
  {
    StageAdmitsSound(run, d);
    hide Stage.Admits, R.Valid, InstallSound;
  }

  /** A command stores a key only into a host that has and pins none; so freshness elsewhere is freshness. */
  lemma StoredKeyIsFresh(s: System, e: Event, d': Disk)
    requires Inv(s) && IsCommand(e) && e.host in s.disks && OwnStep(e.host, e, s.disks[e.host], d')
    requires d'.signer != s.disks[e.host].signer ==> FreshElsewhere(s, e.host, FreshOf(e))
    ensures d'.signer != s.disks[e.host].signer ==> FreshKey(s, FreshOf(e))
  {
    hide Inv, HostSound, Stage.Write, Finalize.Write;
    var d := s.disks[e.host];
    InvHost(s, e.host);
    if e.StageWrite? {
      if d'.signer != d.signer { StagedKeyHasNoPin(e.stage, d, d'); }
    } else {
      FinalizeWriteSound(e.finalize, e.open, d, d');
    }
  }

  // ---- All lives together ----------------------------------------------------------------------

  lemma TurnIsStep(lives: Lives, s: System, at: map<HostId, nat>, e: Event, s': System, at': map<HostId, nat>)
    requires Inv(s) && Abreast(lives, s, at) && Turn(lives, s, at, e, s', at')
    requires e.host in lives ==> Lived(e.host, lives[e.host])
    requires Unforged(s, EnrollmentOf(e))
    requires StoresKey(s, e, s') ==> FreshElsewhere(s, e.host, FreshOf(e))
    ensures Step(s, e, s') && Abreast(lives, s', at')
  {
    hide Inv, Stage.Write, Finalize.Write, FreshKey, FreshElsewhere, Unforged, EnrollmentCreate.MayMint, EnrollmentCreate.Minted,
         Stage.SameRecords;
    if !e.Mint? {
      var life, k := lives[e.host], at[e.host];
      assert OwnStep(e.host, e, life.disks[k], life.disks[k + 1]);
      if IsCommand(e) { StoredKeyIsFresh(s, e, life.disks[k + 1]); }
    }
  }

  /** By one induction over the turns of all hosts: each turn is a step, for all that the turns before it were. */
  lemma {:induction false} TurnsAreSteps(states: seq<System>, events: seq<Event>, lives: Lives, at: seq<map<HostId, nat>>, i: nat)
    requires Interleaved(states, events, lives, at) && KeysAreOwn(states, events) && NeverForged(states, events)
    requires i < |states|
    ensures Inv(states[i]) && Abreast(lives, states[i], at[i])
    ensures forall l | 0 <= l < i :: Step(states[l], events[l], states[l + 1])
  {
    hide Inv, Abreast, Step, Init, Turn, Uses, FreshElsewhere, Unforged, StoresKey, Lived;
    if i == 0 {
      InitInv(states[0]);
    } else {
      var s, e, s' := states[i - 1], events[i - 1], states[i];
      TurnsAreSteps(states, events, lives, at, i - 1);
      if StoresKey(s, e, s') {
        StoringIsCommand(s, e, s');
        KeyStaysOut(states, events, i - 1, e.host, FreshOf(e));
      }
      TurnIsStep(lives, s, at[i - 1], e, s', at[i]);
      StepKeepsInv(s, e, s');
    }
  }

  lemma StoringIsCommand(s: System, e: Event, s': System)
    requires StoresKey(s, e, s')
    ensures IsCommand(e)
  {
  }

  /** Whatever commands run on however many hosts at once, to whatever crashes or ends, is a behaviour: the theorems about all
      behaviours are about the commands. */
  lemma CommandsAreBehaviours(states: seq<System>, events: seq<Event>, lives: Lives, at: seq<map<HostId, nat>>)
    requires Interleaved(states, events, lives, at) && KeysAreOwn(states, events) && NeverForged(states, events)
    ensures Behaviour(states, events)
    ensures forall i | 0 <= i < |states| :: Inv(states[i]) && Abreast(lives, states[i], at[i])
  {
    hide KeysAreOwn, NeverForged, Inv, Abreast, Step, Init, Turn, Lived;
    forall i | 0 <= i < |states| ensures Inv(states[i]) && Abreast(lives, states[i], at[i]) {
      TurnsAreSteps(states, events, lives, at, i);
    }
    TurnsAreSteps(states, events, lives, at, |events|);
  }

  // ---- And nothing else is -----------------------------------------------------------------------

  /** The life of one host in the first `i` steps of a behaviour. */
  ghost function LifeOf(states: seq<System>, events: seq<Event>, h: HostId, i: nat): (life: Life)
    requires i <= |events| && |states| == |events| + 1 && h in states[0].disks
    requires forall l | 0 <= l < i :: Step(states[l], events[l], states[l + 1])
    ensures |life.disks| == |life.steps| + 1
  {
    if i == 0 then Life([states[0].disks[h]], [])
    else
      var before := LifeOf(states, events, h, i - 1);
      if events[i - 1].host == h && !events[i - 1].Mint? && h in states[i].disks
      then Life(before.disks + [states[i].disks[h]], before.steps + [events[i - 1]])
      else before
  }

  lemma StepIsOwn(s: System, e: Event, s': System)
    requires Step(s, e, s') && !e.Mint?
    ensures s'.disks.Keys == s.disks.Keys && e.host in s.disks && OwnStep(e.host, e, s.disks[e.host], s'.disks[e.host])
    ensures s' == s.(disks := s.disks[e.host := s'.disks[e.host]])
  {
    hide Stage.Write, Finalize.Write, Stage.SameRecords, Unforged, FreshKey;
  }

  lemma {:induction false} LifeIsLived(states: seq<System>, events: seq<Event>, h: HostId, i: nat)
    requires i <= |events| && |states| == |events| + 1 && h in states[0].disks
    requires forall l | 0 <= l < i :: Step(states[l], events[l], states[l + 1])
    ensures var life := LifeOf(states, events, h, i);
            Lived(h, life) && h in states[i].disks && life.disks[|life.steps|] == states[i].disks[h]
  {
    hide Step, OwnStep;
    if i > 0 {
      LifeIsLived(states, events, h, i - 1);
      var s, e, s' := states[i - 1], events[i - 1], states[i];
      if e.Mint? { MintKeepsDisks(s, e, s'); } else { StepIsOwn(s, e, s'); }
    }
  }

  lemma MintKeepsDisks(s: System, e: Event, s': System)
    requires Step(s, e, s') && e.Mint?
    ensures s'.disks == s.disks
  {
    hide EnrollmentCreate.MayMint, EnrollmentCreate.Minted;
  }

  lemma {:induction false} LifeGrows(states: seq<System>, events: seq<Event>, h: HostId, i: nat, j: nat)
    requires i <= j <= |events| && |states| == |events| + 1 && h in states[0].disks
    requires forall l | 0 <= l < j :: Step(states[l], events[l], states[l + 1])
    ensures LifeOf(states, events, h, i).disks <= LifeOf(states, events, h, j).disks
    ensures LifeOf(states, events, h, i).steps <= LifeOf(states, events, h, j).steps
    decreases j
  {
    hide Step;
    if i < j { LifeGrows(states, events, h, i, j - 1); }
  }

  ghost predicate StepsAll(states: seq<System>, events: seq<Event>) {
    |states| == |events| + 1 && forall l | 0 <= l < |events| :: Step(states[l], events[l], states[l + 1])
  }

  ghost function AllLives(states: seq<System>, events: seq<Event>): Lives
    requires StepsAll(states, events)
  {
    map h | h in states[0].disks :: LifeOf(states, events, h, |events|)
  }

  ghost function Places(states: seq<System>, events: seq<Event>, i: nat): map<HostId, nat>
    requires StepsAll(states, events) && i <= |events|
  {
    map h | h in states[0].disks :: |LifeOf(states, events, h, i).steps|
  }

  lemma LivesBegin(states: seq<System>, events: seq<Event>)
    requires StepsAll(states, events)
    ensures Abreast(AllLives(states, events), states[0], Places(states, events, 0))
    ensures forall h | h in AllLives(states, events) :: Lived(h, AllLives(states, events)[h])
  {
    hide Step, OwnStep, Lived;
    forall h | h in states[0].disks ensures Lived(h, AllLives(states, events)[h]) { LifeIsLived(states, events, h, |events|); }
    forall h | h in states[0].disks ensures AllLives(states, events)[h].disks[0] == states[0].disks[h] {
      LifeGrows(states, events, h, 0, |events|);
    }
  }

  lemma StepIsUnforged(s: System, e: Event, s': System)
    requires Step(s, e, s')
    ensures Unforged(s, EnrollmentOf(e))
  {
    hide Stage.Write, Finalize.Write, Stage.SameRecords, EnrollmentCreate.MayMint;
  }

  lemma LifeStep(states: seq<System>, events: seq<Event>, h: HostId, i: nat)
    requires StepsAll(states, events) && i < |events| && h in states[0].disks && states[i].disks.Keys == states[0].disks.Keys
    ensures var before, after := LifeOf(states, events, h, i), LifeOf(states, events, h, i + 1);
            if events[i].host == h && !events[i].Mint? && h in states[i + 1].disks
            then after == Life(before.disks + [states[i + 1].disks[h]], before.steps + [events[i]]) else after == before
  {
    hide Step, OwnStep;
  }

  lemma LivesTakeTurns(states: seq<System>, events: seq<Event>, i: nat)
    requires StepsAll(states, events) && i < |events| && states[i].disks.Keys == states[0].disks.Keys
    ensures Turn(AllLives(states, events), states[i], Places(states, events, i), events[i], states[i + 1], Places(states, events, i + 1))
  {
    hide Step, OwnStep, LifeOf;
    var e, at, at' := events[i], Places(states, events, i), Places(states, events, i + 1);
    assert Step(states[i], e, states[i + 1]);
    forall h | h in states[0].disks && (e.Mint? || h != e.host) ensures at'[h] == at[h] { LifeStep(states, events, h, i); }
    if e.Mint? {
      assert at' == at;
    } else {
      StepIsOwn(states[i], e, states[i + 1]);
      LifeStep(states, events, e.host, i);
      LifeGrows(states, events, e.host, i + 1, |events|);
      assert at' == at[e.host := at[e.host] + 1];
    }
  }

  lemma BehaviourSteps(states: seq<System>, events: seq<Event>)
    requires Behaviour(states, events)
    ensures StepsAll(states, events) && Init(states[0]) && |states| == |events| + 1
  {
  }

  lemma StepsUnforged(states: seq<System>, events: seq<Event>)
    requires StepsAll(states, events)
    ensures NeverForged(states, events)
  {
    hide Step, Unforged;
    forall i | 0 <= i < |events| ensures Unforged(states[i], EnrollmentOf(events[i])) {
      StepIsUnforged(states[i], events[i], states[i + 1]);
    }
  }

  lemma LivesInterleave(states: seq<System>, events: seq<Event>, at: seq<map<HostId, nat>>)
    requires StepsAll(states, events) && Init(states[0])
    requires |at| == |events| + 1 && forall i | 0 <= i < |at| :: at[i] == Places(states, events, i)
    requires forall i | 0 <= i < |events| :: states[i].disks.Keys == states[0].disks.Keys
    ensures Interleaved(states, events, AllLives(states, events), at)
  {
    LivesBegin(states, events);
    hide Step, Init, Lived, AllLives, Places, Abreast, Turn;
    forall i | 0 <= i < |events| ensures Turn(AllLives(states, events), states[i], at[i], events[i], states[i + 1], at[i + 1]) {
      LivesTakeTurns(states, events, i);
    }
  }

  /** Every behaviour is the lives of its hosts, interleaved. */
  lemma BehavioursAreLives(states: seq<System>, events: seq<Event>) returns (lives: Lives, at: seq<map<HostId, nat>>)
    requires Behaviour(states, events)
    ensures Interleaved(states, events, lives, at) && |states| == |events| + 1 && NeverForged(states, events)
  {
    hide *;
    BehaviourSteps(states, events);
    forall i | 0 <= i < |events| ensures states[i].disks.Keys == states[0].disks.Keys { EveryStateSound(states, events, i); }
    lives := AllLives(states, events);
    at := seq(|events| + 1, i requires 0 <= i < |events| + 1 => Places(states, events, i));
    LivesInterleave(states, events, at);
    StepsUnforged(states, events);
  }
}
