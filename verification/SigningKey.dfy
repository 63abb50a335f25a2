/** Any number of instances settling on one signing key: read, insert if absent, read again. */
module SigningKey {
  import opened Prelude

  type Key = seq<bv8>
  type Print = seq<bv8>

  const KEY_BYTES: nat := 48

  datatype Source = Provisioned | Supplied | Unknown

  /** The stored row. A supplied key's material is never stored. */
  datatype Record = Record(source: Source, material: Key, fingerprint: Print, generation: nat)

  datatype Resolution = Resolution(key: Key, source: Source, generation: nat, provision: Option<Record>)

  datatype Refusal = NoRandomness | SecretMissing | SecretChanged | SecretUnexpected | KeyUnusable | UnknownSource
                   | Unreachable | Disappeared

  /** The decision, from what is stored and what was supplied. It writes nothing.
      The fingerprint is any function of a key. */
  function Resolve(digest: Key -> Print, stored: Option<Record>, supplied: Key,
                   random: Option<Key>): Result<Resolution, Refusal> {
    match stored
    case None =>
      if supplied == [] then
        if random.None? then Err(NoRandomness)
        else
          var record := Record(Provisioned, random.value, digest(random.value), 1);
          Ok(Resolution(random.value, Provisioned, 1, Some(record)))
      else
        Ok(Resolution(supplied, Supplied, 1, Some(Record(Supplied, [], digest(supplied), 1))))
    case Some(row) =>
      match row.source
      case Supplied =>
        if supplied == [] then Err(SecretMissing)
        else if digest(supplied) != row.fingerprint then Err(SecretChanged)
        else Ok(Resolution(supplied, Supplied, row.generation, None))
      case Provisioned =>
        if supplied != [] then Err(SecretUnexpected)
        else if |row.material| < 32 then Err(KeyUnusable)
        else Ok(Resolution(row.material, Provisioned, row.generation, None))
      case Unknown => Err(UnknownSource)
  }

  // ---- Instances, interleaved -----------------------------------------------------------------

  datatype PC = Reading | Inserting(chosen: Resolution) | Rereading | Done(result: Result<Resolution, Refusal>)

  /** One start: the secret it was given, if any, and the key its random source would give. */
  datatype Instance = Instance(supplied: Key, random: Option<Key>, pc: PC)

  /** The row, how often it has been written, and every instance. */
  datatype System = System(row: Option<Record>, writes: nat, instances: seq<Instance>)

  /** How one statement went: answered, lost on the way, or done with the answer lost. */
  datatype Luck = Answered | Lost | AnswerLost

  datatype Turn = Turn(instance: nat, luck: Luck)

  function Conclude(answer: Result<Resolution, Refusal>): PC {
    if answer.Ok? && answer.value.provision.Some? then Inserting(answer.value) else Done(answer)
  }

  /** One statement of one instance, against the row as it then is. */
  function Step(digest: Key -> Print, s: System, turn: Turn): System {
    if turn.instance >= |s.instances| then s
    else
      var me := s.instances[turn.instance];
      var failed := s.(instances := s.instances[turn.instance := me.(pc := Done(Err(Unreachable)))]);
      match me.pc
      case Reading =>
        if turn.luck != Answered then failed
        else
          var pc := Conclude(Resolve(digest, s.row, me.supplied, me.random));
          s.(instances := s.instances[turn.instance := me.(pc := pc)])
      case Inserting(chosen) =>
        if turn.luck == Lost then failed
        else
          var inserted := s.row.None?;
          var stored := if inserted then System(chosen.provision, s.writes + 1, s.instances) else s;
          var next := if turn.luck == AnswerLost then Done(Err(Unreachable)) else if inserted then Done(Ok(chosen))
            else Rereading;
          stored.(instances := s.instances[turn.instance := me.(pc := next)])
      case Rereading =>
        if turn.luck != Answered then failed
        else
          var answer := if s.row.None? then Err(Disappeared) else Resolve(digest, s.row, me.supplied, me.random);
          s.(instances := s.instances[turn.instance := me.(pc := Done(answer))])
      case Done(_) => s
  }

  function Run(digest: Key -> Print, s: System, turns: seq<Turn>): System {
    if turns == [] then s else Step(digest, Run(digest, s, turns[..|turns| - 1]), turns[|turns| - 1])
  }

  // ---- What every step keeps ------------------------------------------------------------------

  /** A row the table accepts, holding the fingerprint of its own key. */
  ghost predicate WellFormed(digest: Key -> Print, row: Record) {
    match row.source
    case Provisioned => |row.material| >= 32 && row.fingerprint == digest(row.material)
    case Supplied => row.material == []
    case Unknown => false
  }

  /** Before anything runs: no row or a well-formed one, and nobody started. */
  ghost predicate Starting(digest: Key -> Print, s: System) {
    && (s.row.Some? ==> WellFormed(digest, s.row.value)) && s.writes == 0
    && forall i :: 0 <= i < |s.instances| ==>
         s.instances[i].pc == Reading && (s.instances[i].random.Some? ==> |s.instances[i].random.value| == KEY_BYTES)
  }

  /** A resolution signs with the key the row names. */
  ghost predicate Agrees(digest: Key -> Print, chosen: Resolution, row: Record) {
    digest(chosen.key) == row.fingerprint && chosen.source == row.source && chosen.generation == row.generation
  }

  /** An instance whose secret, or lack of one, is what the row was made with. */
  ghost predicate Compatible(digest: Key -> Print, supplied: Key, row: Record) {
    if row.source.Provisioned? then supplied == [] else supplied != [] && digest(supplied) == row.fingerprint
  }

  ghost predicate InstanceSound(digest: Key -> Print, me: Instance, row: Option<Record>) {
    && (me.random.Some? ==> |me.random.value| == KEY_BYTES)
    && match me.pc
       case Reading => true
       case Inserting(chosen) => Resolve(digest, None, me.supplied, me.random) == Ok(chosen)
       case Rereading => row.Some?
       case Done(Ok(chosen)) => row.Some? && Agrees(digest, chosen, row.value)
         && Compatible(digest, me.supplied, row.value)
       case Done(Err(refusal)) =>
         refusal == Unreachable || refusal == NoRandomness
         || (row.Some? && !Compatible(digest, me.supplied, row.value) && refusal != Disappeared)
  }

  ghost predicate Sound(digest: Key -> Print, s: System) {
    && (s.row.Some? ==> WellFormed(digest, s.row.value))
    && forall i :: 0 <= i < |s.instances| ==> InstanceSound(digest, s.instances[i], s.row)
  }

  /** The row once written stays; what it was made of holds for whoever wrote it. */
  lemma StepSound(digest: Key -> Print, s: System, turn: Turn)
    requires Sound(digest, s)
    ensures var s' := Step(digest, s, turn);
            Sound(digest, s') && (s.row.Some? ==> s'.row == s.row) && |s'.instances| == |s.instances|
    ensures var s' := Step(digest, s, turn);
            s'.writes == s.writes + if s.row.None? && s'.row.Some? then 1 else 0
  {
    if turn.instance < |s.instances| {
      var me := s.instances[turn.instance];
      assert InstanceSound(digest, me, s.row);
      var s' := Step(digest, s, turn);
      DecisionSound(digest, s.row, me);
      forall i | 0 <= i < |s'.instances| ensures InstanceSound(digest, s'.instances[i], s'.row) {
        if i != turn.instance {
          assert s'.instances[i] == s.instances[i];
          assert InstanceSound(digest, s.instances[i], s.row);
        }
      }
    }
  }

  /** A decision against a stored row succeeds exactly for the compatible, and agrees with it;
      against none it provisions a row that agrees with its own key. */
  lemma DecisionSound(digest: Key -> Print, row: Option<Record>, me: Instance)
    requires row.Some? ==> WellFormed(digest, row.value)
    requires me.random.Some? ==> |me.random.value| == KEY_BYTES
    ensures var answer := Resolve(digest, row, me.supplied, me.random);
            row.Some? ==> && (answer.Ok? <==> Compatible(digest, me.supplied, row.value))
                          && (answer.Ok? ==> Agrees(digest, answer.value, row.value) && answer.value.provision.None?)
                          && (answer.Err? ==> answer.error !in {Disappeared, Unreachable, NoRandomness})
    ensures var answer := Resolve(digest, None, me.supplied, me.random);
            && (answer.Err? ==> answer.error == NoRandomness)
            && (answer.Ok? ==> answer.value.provision.Some? && WellFormed(digest, answer.value.provision.value)
                               && Agrees(digest, answer.value, answer.value.provision.value)
                               && Compatible(digest, me.supplied, answer.value.provision.value))
  {
  }

  lemma {:induction false} RunSound(digest: Key -> Print, s: System, turns: seq<Turn>)
    requires Starting(digest, s)
    ensures var later := Run(digest, s, turns);
            && Sound(digest, later) && |later.instances| == |s.instances|
            && (s.row.Some? ==> later.row == s.row)
            && later.writes == if s.row.None? && later.row.Some? then 1 else 0
  {
    if turns != [] {
      RunSound(digest, s, turns[..|turns| - 1]);
      hide Sound, Step;
      StepSound(digest, Run(digest, s, turns[..|turns| - 1]), turns[|turns| - 1]);
    }
  }

  // ---- Convergence ----------------------------------------------------------------------------

  /** However the statements interleave, and whatever is lost, the row is written at most
      once, and every instance that succeeds signs with the key that row names. */
  lemma Converges(digest: Key -> Print, s: System, turns: seq<Turn>)
    requires Starting(digest, s)
    ensures var later := Run(digest, s, turns);
            && later.writes <= 1 && (s.row.Some? ==> later.writes == 0 && later.row == s.row)
            && forall i ::
                 0 <= i < |later.instances| && later.instances[i].pc.Done? && later.instances[i].pc.result.Ok? ==>
                   later.row.Some? && Agrees(digest, later.instances[i].pc.result.value, later.row.value)
  {
    RunSound(digest, s, turns);
    hide Run, Agrees;
    var later := Run(digest, s, turns);
    forall i | 0 <= i < |later.instances| && later.instances[i].pc.Done? && later.instances[i].pc.result.Ok?
      ensures later.row.Some? && Agrees(digest, later.instances[i].pc.result.value, later.row.value)
    {
      assert InstanceSound(digest, later.instances[i], later.row);
    }
  }

  /** Fingerprints that tell keys apart make it one key. */
  lemma OneKey(digest: Key -> Print, s: System, turns: seq<Turn>, i: nat, j: nat)
    requires Starting(digest, s) && forall a, b :: digest(a) == digest(b) ==> a == b
    requires var later := Run(digest, s, turns);
             && i < |later.instances| && j < |later.instances|
             && later.instances[i].pc.Done? && later.instances[i].pc.result.Ok?
             && later.instances[j].pc.Done? && later.instances[j].pc.result.Ok?
    ensures var later := Run(digest, s, turns);
            later.instances[i].pc.result.value.key == later.instances[j].pc.result.value.key
  {
    Converges(digest, s, turns);
    hide Run;
  }

  /** An instance that was answered throughout, and had randomness if it needed it, succeeds
      exactly if its secret is the one the row was made with. */
  lemma SucceedsIfCompatible(digest: Key -> Print, s: System, turns: seq<Turn>, i: nat)
    requires Starting(digest, s)
    requires var later := Run(digest, s, turns);
             i < |later.instances| && later.instances[i].pc.Done?
             && later.instances[i].pc.result != Err(Unreachable) && later.instances[i].pc.result != Err(NoRandomness)
    ensures var later := Run(digest, s, turns);
            && later.row.Some?
            && (later.instances[i].pc.result.Ok? <==> Compatible(digest, later.instances[i].supplied, later.row.value))
            && later.instances[i].pc.result != Err(Disappeared)
  {
    RunSound(digest, s, turns);
    hide Run;
    var later := Run(digest, s, turns);
    assert InstanceSound(digest, later.instances[i], later.row);
  }

  // ---- Whose key it is ------------------------------------------------------------------------

  /** A first row: fresh random material with its fingerprint, or the fingerprint alone of the
      secret somebody supplied. */
  ghost predicate FirstRow(digest: Key -> Print, row: Record, supplied: Key, random: Option<Key>) {
    if supplied != [] then row == Record(Supplied, [], digest(supplied), 1)
    else random.Some? && row == Record(Provisioned, random.value, digest(random.value), 1)
  }

  /** What an instance that settled signs with: its own secret, or the stored material. */
  ghost predicate SignsWith(me: Instance, chosen: Resolution, row: Record) {
    chosen.key == (if row.source.Provisioned? then row.material else me.supplied)
    && chosen.source == row.source && chosen.generation == row.generation
  }

  /** Why an instance was turned away. */
  ghost predicate TurnedAway(digest: Key -> Print, me: Instance, refusal: Refusal, row: Option<Record>) {
    match refusal
    case NoRandomness => me.supplied == [] && me.random.None?
    case SecretMissing => row.Some? && row.value.source.Supplied? && me.supplied == []
    case SecretChanged =>
      row.Some? && row.value.source.Supplied? && me.supplied != [] && digest(me.supplied) != row.value.fingerprint
    case SecretUnexpected => row.Some? && row.value.source.Provisioned? && me.supplied != []
    case Unreachable => true
    case KeyUnusable => false
    case UnknownSource => false
    case Disappeared => false
  }

  ghost predicate OriginOf(digest: Key -> Print, me: Instance, row: Option<Record>) {
    match me.pc
    case Reading => true
    case Inserting(chosen) =>
      chosen.provision.Some? && FirstRow(digest, chosen.provision.value, me.supplied, me.random)
      && SignsWith(me, chosen, chosen.provision.value)
    case Rereading => row.Some?
    case Done(Ok(chosen)) => row.Some? && SignsWith(me, chosen, row.value)
    case Done(Err(refusal)) => TurnedAway(digest, me, refusal, row)
  }

  ghost predicate MadeBy(digest: Key -> Print, row: Record, instances: seq<Instance>, i: int) {
    0 <= i < |instances| && FirstRow(digest, row, instances[i].supplied, instances[i].random)
  }

  ghost predicate Origins(digest: Key -> Print, given: Option<Record>, s: System) {
    && (s.row.Some? ==> WellFormed(digest, s.row.value))
    && (forall i :: 0 <= i < |s.instances| ==> OriginOf(digest, s.instances[i], s.row))
    && (if given.Some? then s.row == given else s.row.Some? ==> exists i :: MadeBy(digest, s.row.value, s.instances, i))
  }

  lemma StepOrigins(digest: Key -> Print, given: Option<Record>, s: System, turn: Turn)
    requires Origins(digest, given, s) && Sound(digest, s)
    ensures Origins(digest, given, Step(digest, s, turn))
  {
    if turn.instance < |s.instances| {
      var me, s' := s.instances[turn.instance], Step(digest, s, turn);
      StepSound(digest, s, turn);
      assert OriginOf(digest, me, s.row) && InstanceSound(digest, me, s.row);
      forall i | 0 <= i < |s'.instances| ensures OriginOf(digest, s'.instances[i], s'.row) {
        if i != turn.instance { assert OriginOf(digest, s.instances[i], s.row); }
      }
      if i :| s.row.Some? && MadeBy(digest, s.row.value, s.instances, i) {
        assert MadeBy(digest, s.row.value, s'.instances, i);
      }
      if s.row.None? && s'.row.Some? { assert MadeBy(digest, s'.row.value, s'.instances, turn.instance); }
    }
  }

  /** Over any run, a row that was not there before is the first row of one of the instances; every
      instance that succeeds signs with its own secret or with the stored material, as the row
      says; and one that was answered and refused is told the reason that holds. */
  lemma {:induction false} OriginsHold(digest: Key -> Print, s: System, turns: seq<Turn>)
    requires Starting(digest, s)
    ensures Origins(digest, s.row, Run(digest, s, turns))
  {
    if turns != [] {
      OriginsHold(digest, s, turns[..|turns| - 1]);
      RunSound(digest, s, turns[..|turns| - 1]);
      hide Sound, Step, Origins;
      StepOrigins(digest, s.row, Run(digest, s, turns[..|turns| - 1]), turns[|turns| - 1]);
    }
  }

  // ---- Three statements are enough ------------------------------------------------------------

  function Remaining(pc: PC): nat {
    match pc
    case Reading => 3
    case Inserting(_) => 2
    case Rereading => 1
    case Done(_) => 0
  }

  function TurnsOf(turns: seq<Turn>, i: nat): nat {
    if turns == [] then 0
    else TurnsOf(turns[..|turns| - 1], i) + if turns[|turns| - 1].instance == i then 1 else 0
  }

  /** An instance is done after at most three statements of its own, whatever the others do. */
  lemma {:induction false} DoneInThree(digest: Key -> Print, s: System, turns: seq<Turn>, i: nat)
    requires Starting(digest, s) && i < |s.instances|
    ensures |Run(digest, s, turns).instances| == |s.instances|
    ensures Remaining(Run(digest, s, turns).instances[i].pc) + TurnsOf(turns, i) <= 3
            || Run(digest, s, turns).instances[i].pc.Done?
  {
    if turns != [] {
      DoneInThree(digest, s, turns[..|turns| - 1], i);
    }
  }
}
