/** The protocol of heat/engine/update.py over the existing, the new and the backup stack. */
module StackUpdates {
  import opened Wrappers
  import opened Resources

  // ---------------------------------------------------------------- segments of the operations on one resource

  /** How a segment of an operation, from one yield to the next, ends. */
  datatype Outcome = Yields | Returns | Raises

  /** There is nothing to delete. */
  predicate Skipped(s: State) {
    s == State(DELETE, COMPLETE) || s.action == INIT
  }

  /** Resource.delete or destroy: the state after a segment; first says whether it is the first one. */
  function DeleteSegment(s: State, first: bool, o: Outcome): State {
    if first && Skipped(s) then s
    else match o
      case Yields => State(DELETE, IN_PROGRESS)
      case Returns => State(DELETE, COMPLETE)
      case Raises => State(DELETE, FAILED)
  }

  function OutcomeOf(g: Generator): Outcome {
    if !g.pc.Ended? then Yields else if g.raised then Raises else Returns
  }

  /** The segments are those of the generator of delete. */
  lemma DeleteSegmentIsDriven(g: Generator, p: Call, h: Call, c: Call)
    requires g.kind.DeleteWith? && !g.pc.Ended? && !g.raised
    requires g.pc.Polling? ==> g.state == State(DELETE, IN_PROGRESS)
    ensures Driven(g, Next(p, h, c)).state
            == DeleteSegment(g.state, g.pc.Unstarted?, OutcomeOf(Driven(g, Next(p, h, c))))
    ensures Skips(g) && g.pc.Unstarted? ==> OutcomeOf(Driven(g, Next(p, h, c))) == Returns
  {
  }

  /** Resource.create of a resource that was never created. refused: it raised before changing the state. */
  function CreateSegment(s: State, refused: bool, o: Outcome): State {
    if refused then s
    else match o
      case Yields => State(CREATE, IN_PROGRESS)
      case Returns => State(CREATE, COMPLETE)
      case Raises => State(CREATE, FAILED)
  }

  /** The segments are those of the generator of _do_action for CREATE. */
  lemma CreateSegmentIsDriven(g: Generator, p: Call, h: Call, c: Call)
    requires g.kind == DoAction(CREATE) && !g.pc.Ended? && !g.raised
    requires g.pc.Polling? ==> g.state == State(CREATE, IN_PROGRESS)
    ensures Driven(g, Next(p, h, c)).state == CreateSegment(g.state, false, OutcomeOf(Driven(g, Next(p, h, c))))
  {
  }

  /** Resource.update may also find that the resource has to be replaced. */
  datatype UpdateOutcome = Unchanged | Refused | NeedsReplacement(late: bool) | Ran(o: Outcome)

  function UpdateSegment(s: State, o: UpdateOutcome): State {
    match o
    case Unchanged => s
    case Refused => s
    case NeedsReplacement(late) => if late then State(UPDATE, IN_PROGRESS) else s
    case Ran(Yields) => State(UPDATE, IN_PROGRESS)
    case Ran(Returns) => State(UPDATE, COMPLETE)
    case Ran(Raises) => State(UPDATE, FAILED)
  }

  /**
    How the plugin answers in one segment, whichever of its operations the
    segment gets to. All answers are allowed in all segments, although only the
    first segment of an update can find that there is nothing to do, or refuse.
  */
  datatype Answers = Answers(
    update: UpdateOutcome, deleteBackup: Outcome, deleteOld: Outcome, create: Outcome, refuses: bool)

  // ---------------------------------------------------------------- where each task is

  /** Cleaning up the backup resource of a name before a normal update. */
  datatype CleanPc = CleanIdle | Cleaning | CleanDone

  /** _process_new_resource_update */
  datatype NewPc = NewIdle | Updating | DestroyingBackup | Creating | UpdatedInPlace | SwappedIn | Created

  /** _process_existing_resource_update */
  datatype OldPc = OldIdle | CleaningBackup | BackupGone | DestroyingSelf | OldDone

  predicate NewDone(pc: NewPc) {
    pc.UpdatedInPlace? || pc.SwappedIn? || pc.Created?
  }

  /** Every operation that the segment gets to succeeds at once. */
  predicate Prompt(p: Answers) {
    && p.deleteBackup.Returns? && p.deleteOld.Returns? && p.create.Returns? && !p.refuses
    && (p.update.Unchanged? || p.update.NeedsReplacement? || p.update == Ran(Returns))
  }

  predicate AllPrompt(plugin: nat -> Answers, limit: nat) {
    forall i: nat :: i < limit ==> Prompt(plugin(i))
  }

  /** All operations succeed at once, and there are more segments than tasks. */
  predicate Enough(plugin: nat -> Answers, limit: nat, tasks: nat) {
    AllPrompt(plugin, limit) && limit > tasks
  }

  /** The names whose tasks are not finished. */
  ghost function OpenClean(m: map<Name, CleanPc>): set<Name> {
    set n | n in m && !m[n].CleanDone?
  }

  ghost function OpenNew(m: map<Name, NewPc>): set<Name> {
    set n | n in m && !NewDone(m[n])
  }

  ghost function OpenOld(m: map<Name, OldPc>): set<Name> {
    set n | n in m && !m[n].OldDone?
  }

  /** What became of an advance: it yielded, finished, raised, or looked up a name that is not there. */
  datatype Advance = Yielded | Finished | Raising | KeyError

  function AdvanceOf(o: Outcome): Advance {
    match o
    case Yields => Yielded
    case Returns => Finished
    case Raises => Raising
  }

  function CreateAdvance(first: bool, p: Answers): Advance {
    if first && p.refuses then Raising else AdvanceOf(p.create)
  }

  /** The new resource replaces the existing one, or the backup does. */
  predicate Replacing(pc: NewPc) {
    pc.DestroyingBackup? || pc.SwappedIn? || pc.Creating? || pc.Created?
  }

  /** Where the task for a new resource is after the plugin has answered the request for an update. */
  predicate Answered(pc: NewPc, o: UpdateOutcome) {
    match o
    case Unchanged => pc.UpdatedInPlace?
    case NeedsReplacement(_) => Replacing(pc)
    case Refused => pc.Updating?
    case Ran(ran) => if ran.Returns? then pc.UpdatedInPlace? else pc.Updating?
  }

  // ---------------------------------------------------------------- one name

  /** The resources of one name, by the stack they came from, and where the tasks for that name are. */
  datatype View = View(
    older: Option<State>, backup: Option<State>, newer: Option<State>,
    cleanAt: Option<CleanPc>, newAt: Option<NewPc>, oldAt: Option<OldPc>)

  /** Which of the resources of one name. */
  datatype Slot = Nothing | OldOne | BackupOne | NewOne

  predicate Replaced(v: View) {
    v.newAt == Some(Creating) || v.newAt == Some(Created)
  }

  predicate Swapped(v: View) {
    v.newAt == Some(SwappedIn)
  }

  predicate Removed(v: View) {
    v.oldAt == Some(OldDone) && v.newer.None?
  }

  /** Which resource the existing stack has under the name follows from where the tasks are. */
  function InExisting(v: View): Slot {
    if Replaced(v) then NewOne
    else if Swapped(v) then BackupOne
    else if Removed(v) || v.older.None? then Nothing
    else OldOne
  }

  /** And so does which one the backup stack has. */
  function InPrevious(v: View): Slot {
    if (Replaced(v) || Swapped(v)) && v.older.Some? then OldOne
    else if v.backup.Some? then BackupOne
    else Nothing
  }

  function StateOf(v: View, s: Slot): Option<State> {
    match s
    case Nothing => None
    case OldOne => v.older
    case BackupOne => v.backup
    case NewOne => v.newer
  }

  /** v with the state of one of its resources changed. */
  function WithState(v: View, slot: Slot, s: State): View {
    match slot
    case Nothing => v
    case OldOne => v.(older := Some(s))
    case BackupOne => v.(backup := Some(s))
    case NewOne => v.(newer := Some(s))
  }

  predicate Dead(s: Option<State>) {
    s.Some? ==> !Live(s.value)
  }

  predicate Alive(s: Option<State>) {
    s.Some? && Live(s.value)
  }

  /** The order of the tasks: clean up, create or update, then clean up after that. */
  predicate Staged(v: View, rollback: bool) {
    && (v.newAt.Some? <==> v.newer.Some?) && (v.oldAt.Some? <==> v.older.Some?) && (v.cleanAt.Some? <==> v.backup.Some?)
    && (rollback && v.cleanAt.Some? ==> v.cleanAt == Some(CleanIdle))
    && (v.newAt.Some? && v.older.None?
        ==> !v.newAt.value.Updating? && !v.newAt.value.UpdatedInPlace? && !v.newAt.value.SwappedIn?)
    && (v.newAt == Some(SwappedIn) || v.newAt == Some(DestroyingBackup) ==> v.backup.Some?)
    && (v.oldAt.Some? && v.oldAt != Some(OldIdle) && v.newAt.Some?
        ==> NewDone(v.newAt.value) && v.oldAt != Some(DestroyingSelf))
    && (!rollback && v.cleanAt.Some? && v.cleanAt != Some(CleanDone) ==>
          (v.newAt.Some? ==> v.newAt == Some(NewIdle)) && (v.oldAt.Some? ==> v.oldAt == Some(OldIdle)))
  }

  /** A resource that is in neither stack is not live. */
  predicate NothingLost(v: View) {
    && (Replaced(v) && v.older.Some? ==> Dead(v.backup))
    && (Removed(v) ==> Dead(v.older))
    && (v.newer.Some? && !Replaced(v) ==> v.newer == Some(State(INIT, COMPLETE)))
  }

  /** What is known of the states of the resources. */
  predicate StatesFit(v: View) {
    && (v.newAt == Some(Created) ==> v.newer == Some(State(CREATE, COMPLETE)))
    && (Swapped(v) ==> Alive(v.backup) && v.backup.value.status == COMPLETE)
    && (v.cleanAt == Some(Cleaning) || v.newAt == Some(DestroyingBackup) ==> Alive(v.backup))
    // a resource that was backed up counts as valid until it is cleaned up
    && (Replaced(v) && v.oldAt == Some(OldIdle) ==> v.older == Some(State(UPDATE, COMPLETE)))
    && (v.oldAt == Some(CleaningBackup) ==> Alive(StateOf(v, InPrevious(v))))
    && (v.oldAt.Some? && v.oldAt != Some(OldIdle) && v.oldAt != Some(CleaningBackup)
        ==> Dead(StateOf(v, InPrevious(v))))
    // only resources that were never created are in action INIT
    && Settled(v.older) && Settled(v.backup) && Settled(v.newer)
  }

  predicate Settled(s: Option<State>) {
    s.Some? && s.value.action == INIT ==> s.value.status == COMPLETE
  }

  /** What a normal update cleans up first, and what a sound start makes sure of. */
  predicate StartsClean(v: View, rollback: bool, sound: bool) {
    && (!rollback && v.cleanAt == Some(CleanDone) ==> !Swapped(v) && Dead(v.backup))
    && (sound && v.older.None? ==> Dead(v.backup) && v.cleanAt != Some(Cleaning))
  }

  predicate Good(v: View, rollback: bool, sound: bool) {
    Staged(v, rollback) && NothingLost(v) && StatesFit(v) && StartsClean(v, rollback, sound)
  }

  /** The cleanup of previous updates is over, or was not asked for. */
  predicate Cleaned(v: View, rollback: bool) {
    rollback || v.cleanAt.None? || v.cleanAt == Some(CleanDone)
  }

  /** Closing a generator: a deletion or creation that is under way fails. An update is left as it is. */
  function Closed(s: Option<State>): Option<State> {
    if s == Some(State(DELETE, IN_PROGRESS)) then Some(State(DELETE, FAILED))
    else if s == Some(State(CREATE, IN_PROGRESS)) then Some(State(CREATE, FAILED))
    else s
  }

  /** Closing the task for an old resource. */
  function LateClosed(v: View): View {
    var slot := if v.oldAt == Some(DestroyingSelf) then OldOne
                else if v.oldAt == Some(CleaningBackup) then InPrevious(v) else Nothing;
    var s := Closed(StateOf(v, slot));
    if s.Some? then WithState(v, slot, s.value) else v
  }

  /** Closing the cleanup of a backup, and the task for a new resource. */
  function EarlyClosed(v: View): View {
    if v.cleanAt == Some(Cleaning) || v.newAt == Some(DestroyingBackup) then v.(backup := Closed(v.backup))
    else if v.newAt == Some(Creating) then v.(newer := Closed(v.newer))
    else v
  }

  /** Cancelling the tasks of one name. */
  function ClosedView(v: View): View {
    EarlyClosed(LateClosed(v))
  }

  /** No deletion or creation that was under way is left in progress. */
  lemma CloseSettles(v: View, rollback: bool, sound: bool)
    requires Good(v, rollback, sound)
    ensures var v' := ClosedView(v);
      && (v.newAt == Some(Creating) ==> v'.newer != Some(State(CREATE, IN_PROGRESS)))
      && (v.oldAt == Some(DestroyingSelf) ==> v'.older != Some(State(DELETE, IN_PROGRESS)))
      && (v.cleanAt == Some(Cleaning) || v.newAt == Some(DestroyingBackup) ==>
            v'.backup != Some(State(DELETE, IN_PROGRESS)))
      && (v.oldAt == Some(CleaningBackup) ==> StateOf(v', InPrevious(v)) != Some(State(DELETE, IN_PROGRESS)))
      && v' == v.(older := v'.older, backup := v'.backup, newer := v'.newer)
      && v'.older in {v.older, Closed(v.older)} && v'.backup in {v.backup, Closed(v.backup)}
      && v'.newer in {v.newer, Closed(v.newer)}
  {
  }

  lemma LateKeeps(v: View, rollback: bool, sound: bool)
    requires Good(v, rollback, sound)
    ensures var v' := LateClosed(v);
      Good(v', rollback, sound) && InExisting(v') == InExisting(v) && InPrevious(v') == InPrevious(v)
  {
  }

  lemma EarlyKeeps(v: View, rollback: bool, sound: bool)
    requires Good(v, rollback, sound)
    ensures var v' := EarlyClosed(v);
      Good(v', rollback, sound) && InExisting(v') == InExisting(v) && InPrevious(v') == InPrevious(v)
  {
  }

  lemma CloseKeeps(v: View, rollback: bool, sound: bool)
    requires Good(v, rollback, sound)
    ensures var v' := ClosedView(v);
      Good(v', rollback, sound) && InExisting(v') == InExisting(v) && InPrevious(v') == InPrevious(v)
  {
    LateKeeps(v, rollback, sound);
    EarlyKeeps(LateClosed(v), rollback, sound);
  }

  /** Before any task has been started. */
  lemma GoodAtStart(v: View, rollback: bool, sound: bool)
    requires v.cleanAt == (if v.backup.Some? then Some(CleanIdle) else None)
    requires v.newAt == (if v.newer.Some? then Some(NewIdle) else None)
    requires v.oldAt == (if v.older.Some? then Some(OldIdle) else None)
    requires Settled(v.older) && Settled(v.backup) && (v.newer.Some? ==> v.newer == Some(State(INIT, COMPLETE)))
    requires sound && v.older.None? ==> Dead(v.backup)
    ensures Good(v, rollback, sound)
    ensures InExisting(v) == (if v.older.Some? then OldOne else Nothing)
    ensures InPrevious(v) == (if v.backup.Some? then BackupOne else Nothing)
  {
  }

  /** A segment of cleaning up before a normal update. */
  lemma CleanKeeps(v: View, s: State, pc: CleanPc, sound: bool)
    requires Good(v, false, sound) && v.cleanAt.Some? && v.cleanAt != Some(CleanDone) && Settled(Some(s))
    requires if Alive(v.backup) then (pc.Cleaning? && Live(s)) || (pc.CleanDone? && !Live(s))
             else pc.CleanDone? && v.backup == Some(s)
    ensures var v' := v.(backup := Some(s), cleanAt := Some(pc));
      Good(v', false, sound) && InExisting(v') == InExisting(v) && InPrevious(v') == InPrevious(v)
  {
  }

  /** A segment of creating the new resource, once it is in place. */
  lemma CreateKeeps(v: View, s: State, pc: NewPc, rollback: bool, sound: bool)
    requires Good(v, rollback, sound) && v.newAt == Some(Creating) && Cleaned(v, rollback) && Settled(Some(s))
    requires pc.Creating? || (pc.Created? && s == State(CREATE, COMPLETE))
    ensures var v' := v.(newer := Some(s), newAt := Some(pc));
      Good(v', rollback, sound) && InExisting(v') == InExisting(v) && InPrevious(v') == InPrevious(v)
  {
  }

  /** A task for the new resource that may still back up the existing one. */
  predicate NotInPlace(v: View) {
    v.newAt.Some? && !NewDone(v.newAt.value) && v.newAt != Some(Creating)
  }

  /** After a segment of updating the existing resource in place, which ended as o says. */
  function UpdatedView(v: View, o: UpdateOutcome): View {
    v.(older := if v.older.Some? then Some(UpdateSegment(v.older.value, o)) else None,
       newAt := Some(if o.Unchanged? || o == Ran(Returns) then UpdatedInPlace else Updating))
  }

  lemma UpdateKeeps(v: View, o: UpdateOutcome, rollback: bool, sound: bool)
    requires Good(v, rollback, sound) && NotInPlace(v) && v.newAt != Some(DestroyingBackup)
    requires Cleaned(v, rollback) && v.older.Some?
    ensures var v' := UpdatedView(v, o);
      Good(v', rollback, sound) && InExisting(v') == OldOne == InExisting(v) && InPrevious(v') == InPrevious(v)
  {
  }

  /** A segment of destroying the backup resource before the existing one is backed up. */
  lemma DestroyBackupKeeps(v: View, s: State, pc: NewPc, rollback: bool, sound: bool)
    requires Good(v, rollback, sound) && NotInPlace(v) && Cleaned(v, rollback) && Alive(v.backup) && Settled(Some(s))
    requires if Live(s) then pc.DestroyingBackup? || pc == v.newAt.value else pc.NewIdle?
    ensures var v' := v.(backup := Some(s), newAt := Some(pc));
      Good(v', rollback, sound) && InExisting(v') == InExisting(v) && InPrevious(v') == BackupOne == InPrevious(v)
  {
  }

  /** Backing up the existing resource, if there is one, and putting the new one in its place. */
  function BackedUp(v: View): View {
    v.(older := if v.older.Some? then Some(State(UPDATE, COMPLETE)) else None, newAt := Some(Creating))
  }

  lemma BackUpKeeps(v: View, rollback: bool, sound: bool)
    requires Good(v, rollback, sound) && NotInPlace(v) && Cleaned(v, rollback) && Dead(v.backup)
    ensures var v' := BackedUp(v);
      && Good(v', rollback, sound) && InExisting(v') == NewOne
      && InPrevious(v') == (if v.older.Some? then OldOne else InPrevious(v))
      && InExisting(v) == (if v.older.Some? then OldOne else Nothing)
  {
  }

  /** After a segment of creating the new resource. */
  function CreatedView(v: View, first: bool, p: Answers): View {
    v.(newer := if v.newer.Some? then Some(CreateSegment(v.newer.value, first && p.refuses, p.create)) else None,
       newAt := Some(if CreateAdvance(first, p).Finished? then Created else Creating))
  }

  /** A segment of destroying the backup resource, and of what follows at its end. */
  function DestroyTurn(v: View, first: bool, p: Answers): (View, Advance) {
    var v' := if v.backup.Some? then v.(backup := Some(DeleteSegment(v.backup.value, first, p.deleteBackup))) else v;
    if p.deleteBackup.Returns? then (CreatedView(BackedUp(v'), true, p), CreateAdvance(true, p))
    else (v'.(newAt := Some(DestroyingBackup)), AdvanceOf(p.deleteBackup))
  }

  /** _create_resource up to its first yield. */
  function CreateTurn(v: View, p: Answers): (View, Advance) {
    if !Alive(v.backup) then (CreatedView(BackedUp(v), true, p), CreateAdvance(true, p))
    else if v.backup.value.status != COMPLETE then DestroyTurn(v, true, p)
    else if v.older.None? then (v, KeyError)
    else (v.(newAt := Some(SwappedIn)), Finished)
  }

  /** The existing resource is asked to update itself. */
  predicate Asks(v: View) {
    v.older.Some? && (v.newAt == Some(NewIdle) || v.newAt == Some(Updating))
  }

  /** A segment of the update of the existing resource, and what follows up to the next yield. */
  function UpdateTurn(v: View, p: Answers): (View, Advance) {
    var u := UpdatedView(v, p.update);
    match p.update
    case Unchanged => (u, Finished)
    case Refused => (u, Raising)
    case NeedsReplacement(_) => CreateTurn(u, p)
    case Ran(ran) => (u, AdvanceOf(ran))
  }

  /** A segment of the task for a new resource: where it takes the name, and how it ends. */
  function NewTurn(v: View, p: Answers): (View, Advance) {
    if Asks(v) then UpdateTurn(v, p)
    else if v.newAt == Some(Creating) then (CreatedView(v, false, p), CreateAdvance(false, p))
    else if v.newAt == Some(DestroyingBackup) then DestroyTurn(v, false, p)
    else CreateTurn(v, p)
  }

  /**
    A task for a new resource does what the existing one answers: it is content
    with it only if that had nothing to do or has updated itself, and a demand
    for replacement is met by the backup or by the new resource. It is finished
    if and only if one of these is in place.
  */
  lemma TurnAnswers(v: View, p: Answers)
    requires v.newAt.Some? && !NewDone(v.newAt.value)
    ensures var (v', a) := NewTurn(v, p);
      && v'.newAt.Some? && (a == Finished <==> NewDone(v'.newAt.value))
      && (a == KeyError ==> v'.older.None? && Alive(v.backup) && v' == v)
      && (if Asks(v) then Answered(v'.newAt.value, p.update) else Replacing(v'.newAt.value) || a == KeyError)
      && (p.update.NeedsReplacement? && CanMeet(v) ==> Met(v, v'))
  {
  }

  /** A segment whose operations succeed at once finishes its task. */
  lemma PromptTurns(v: View, p: Answers, rollback: bool, sound: bool)
    requires Good(v, rollback, sound)
    ensures Prompt(p) && v.newAt.Some? && !NewDone(v.newAt.value) ==>
              NewTurn(v, p).1 == Finished || NewTurn(v, p).1 == KeyError
    ensures Prompt(p) && v.oldAt.Some? && v.oldAt != Some(OldDone) ==> OldTurn(v, p).1 == Finished
  {
  }

  lemma SoundTurn(v: View, p: Answers, rollback: bool, sound: bool)
    requires Good(v, rollback, sound) && v.newAt.Some? && !NewDone(v.newAt.value)
    ensures sound ==> NewTurn(v, p).1 != KeyError
  {
  }

  /** There is a valid backup, or no backup at all, when the existing resource is asked. */
  predicate CanMeet(v: View) {
    Asks(v) && (Dead(v.backup) || v.backup.value.status == COMPLETE)
  }

  /** A valid backup comes back as it is, and otherwise the new resource is put in place. */
  predicate Met(v: View, v': View) {
    if Alive(v.backup) then Swapped(v') && v'.backup == v.backup else Replaced(v')
  }

  /** No exception is lost: how the segment ends is how the last of the operations ended that it got to. */
  lemma TurnEnds(v: View, p: Answers, rollback: bool, sound: bool)
    requires Good(v, rollback, sound) && v.newAt.Some? && !NewDone(v.newAt.value)
    ensures var (v', a) := NewTurn(v, p);
      match v'.newAt.value
      case Creating => if p.refuses && v.newAt != Some(Creating) then v'.newer == v.newer && a == Raising
                       else v'.newer == Some(State(CREATE, StatusAt(a))) && a == AdvanceOf(p.create)
      case Created => v'.newer == Some(State(CREATE, COMPLETE)) && p.create.Returns?
      case DestroyingBackup => v'.backup == Some(State(DELETE, StatusAt(a))) && a == AdvanceOf(p.deleteBackup)
      case Updating => if p.update.Refused? then v'.older == v.older && a == Raising
                       else p.update.Ran? && v'.older == Some(State(UPDATE, StatusAt(a))) && a == AdvanceOf(p.update.o)
      case _ => a == Finished || a == KeyError
    ensures var (v', a) := NewTurn(v, p);
      a != KeyError && NewTurn(v, p).0.newAt.value in {Creating, Created} && v.newAt != Some(Creating) ==>
        v'.older == if v.older.Some? then Some(State(UPDATE, COMPLETE)) else None
  {
  }

  /** The status of a resource whose operation has come so far. */
  function StatusAt(a: Advance): Status {
    match a
    case Yielded => IN_PROGRESS
    case Finished => COMPLETE
    case _ => FAILED
  }

  /** A segment of cleaning up a backup resource. */
  ghost predicate CleanReflects(v: View, v': View, p: Answers, a: Advance) {
    && (v'.cleanAt == Some(CleanDone) <==> a == Finished)
    && if Alive(v.backup)
       then a == AdvanceOf(p.deleteBackup)
            && v'.backup == Some(DeleteSegment(v.backup.value, v.cleanAt == Some(CleanIdle), p.deleteBackup))
       else a == Finished && v'.backup == v.backup
  }

  /** A segment of destroying an old resource that has no successor. */
  function DestroyOldTurn(v: View, first: bool, o: Outcome): (View, Advance) {
    if v.older.None? then (v, Finished)
    else if o.Returns? || (first && Skipped(v.older.value)) then
      (v.(older := Some(DeleteSegment(v.older.value, first, o)), oldAt := Some(OldDone)), Finished)
    else (v.(older := Some(DeleteSegment(v.older.value, first, o)), oldAt := Some(DestroyingSelf)), AdvanceOf(o))
  }

  /** A segment of cleaning up what is now in the backup stack. */
  function CleanTurn(v: View, o: Outcome): (View, Outcome) {
    var s := StateOf(v, InPrevious(v));
    if !Alive(s) then (v.(oldAt := Some(BackupGone)), Returns)
    else
      var v' := WithState(v, InPrevious(v), DeleteSegment(s.value, v.oldAt == Some(OldIdle), o));
      (v'.(oldAt := Some(if o.Returns? then BackupGone else CleaningBackup)), o)
  }

  /** A segment of the task for an old resource: where it takes the name, and how it ends. */
  function OldTurn(v: View, p: Answers): (View, Advance) {
    if v.oldAt == Some(DestroyingSelf) then DestroyOldTurn(v, false, p.deleteOld)
    else
      var (v', o) := CleanTurn(v, p.deleteBackup);
      if !o.Returns? then (v', AdvanceOf(o))
      else if v.newer.Some? then (v'.(oldAt := Some(OldDone)), Finished)
      else DestroyOldTurn(v', true, p.deleteOld)
  }

  /**
    A task for an old resource is finished only when the backup under its name
    is no longer live, nor the old resource itself if it has no successor; and no
    exception is lost.
  */
  lemma OldTurnEnds(v: View, p: Answers, rollback: bool, sound: bool)
    requires Good(v, rollback, sound) && v.oldAt.Some? && v.oldAt != Some(OldDone)
    requires v.newAt.Some? ==> NewDone(v.newAt.value)
    ensures var (v', a) := OldTurn(v, p);
      && v'.oldAt.Some? && v'.newer == v.newer && (a == Finished <==> v'.oldAt == Some(OldDone)) && a != KeyError
      && match v'.oldAt.value
         case CleaningBackup =>
           StateOf(v', InPrevious(v)) == Some(State(DELETE, StatusAt(a))) && a == AdvanceOf(p.deleteBackup)
         case DestroyingSelf =>
           v.newer.None? && v'.older == Some(State(DELETE, StatusAt(a))) && a == AdvanceOf(p.deleteOld)
         case OldDone => Dead(StateOf(v', InPrevious(v))) && (v.newer.None? ==> Dead(v'.older))
         case _ => false
  {
  }

  /** Swapping in a valid backup. */
  lemma SwapKeeps(v: View, rollback: bool, sound: bool)
    requires Good(v, rollback, sound) && NotInPlace(v) && Cleaned(v, rollback) && v.older.Some?
    requires Alive(v.backup) && v.backup.value.status == COMPLETE
    ensures var v' := v.(newAt := Some(SwappedIn));
      && Good(v', rollback, sound) && InExisting(v') == BackupOne && InPrevious(v') == OldOne
      && InExisting(v) == OldOne && InPrevious(v) == BackupOne
  {
  }

  /** A segment of destroying an old resource that has no successor, and removing it at the end. */
  lemma DestroyOldKeeps(v: View, s: State, pc: OldPc, rollback: bool, sound: bool)
    requires Good(v, rollback, sound) && (v.oldAt == Some(BackupGone) || v.oldAt == Some(DestroyingSelf))
    requires Cleaned(v, rollback) && Settled(Some(s)) && v.newer.None?
    requires pc.DestroyingSelf? || pc == v.oldAt.value || (pc.OldDone? && !Live(s))
    ensures var v' := v.(older := Some(s), oldAt := Some(pc));
      && Good(v', rollback, sound) && InExisting(v') == (if pc.OldDone? then Nothing else InExisting(v))
      && InPrevious(v') == InPrevious(v) && InExisting(v) == OldOne
  {
  }

  /** An old resource that has a successor stays where it is. */
  lemma FinishOldKeeps(v: View, rollback: bool, sound: bool)
    requires Good(v, rollback, sound) && v.oldAt == Some(BackupGone) && Cleaned(v, rollback) && v.newer.Some?
    ensures var v' := v.(oldAt := Some(OldDone));
      Good(v', rollback, sound) && InExisting(v') == InExisting(v) && InPrevious(v') == InPrevious(v)
  {
  }

  /** A segment of cleaning up what is now in the backup stack. */
  lemma CleanBackupKeeps(v: View, s: State, pc: OldPc, rollback: bool, sound: bool)
    requires Good(v, rollback, sound) && (v.oldAt == Some(OldIdle) || v.oldAt == Some(CleaningBackup))
    requires v.newAt.Some? ==> NewDone(v.newAt.value)
    requires Cleaned(v, rollback) && Settled(Some(s))
    requires if Alive(StateOf(v, InPrevious(v)))
             then (pc.CleaningBackup? && Live(s)) || (pc.BackupGone? && !Live(s))
             else pc.BackupGone? && StateOf(v, InPrevious(v)) in {None, Some(s)}
    ensures var v' := WithState(v, InPrevious(v), s).(oldAt := Some(pc));
      Good(v', rollback, sound) && InExisting(v') == InExisting(v) && InPrevious(v') == InPrevious(v)
  {
  }

  lemma CleanTurnKeeps(v: View, o: Outcome, rollback: bool, sound: bool)
    requires Good(v, rollback, sound) && (v.oldAt == Some(OldIdle) || v.oldAt == Some(CleaningBackup))
    requires v.newAt.Some? ==> NewDone(v.newAt.value)
    requires Cleaned(v, rollback)
    ensures var v' := CleanTurn(v, o).0;
      Good(v', rollback, sound) && InExisting(v') == InExisting(v) && InPrevious(v') == InPrevious(v)
  {
    var s := StateOf(v, InPrevious(v));
    if Alive(s) {
      var s' := DeleteSegment(s.value, v.oldAt == Some(OldIdle), o);
      CleanBackupKeeps(v, s', if o.Returns? then BackupGone else CleaningBackup, rollback, sound);
    } else {
      CleanBackupKeeps(v, if s.Some? then s.value else State(INIT, COMPLETE), BackupGone, rollback, sound);
    }
  }

  function Lookup<V>(m: map<Name, V>, n: Name): Option<V> {
    if n in m then Some(m[n]) else None
  }

  /** The tasks for all of names are at pc. */
  predicate AllAt<V(==)>(m: map<Name, V>, names: set<Name>, pc: V) {
    m.Keys == names && forall n :: n in m ==> m[n] == pc
  }

  method StartAt<V(==)>(names: set<Name>, pc: V) returns (m: map<Name, V>)
    ensures AllAt(m, names, pc)
  {
    m := map n | n in names :: pc;
  }

  lemma SameElsewhere<V>(m: map<Name, V>, m': map<Name, V>, n: Name)
    requires forall k :: k != n ==> Lookup(m', k) == Lookup(m, k)
    ensures n in m && n in m' ==> m' == m[n := m'[n]]
  {
    forall k | k != n ensures (k in m' <==> k in m) && (k in m ==> m'[k] == m[k]) {
      assert Lookup(m', k) == Lookup(m, k);
    }
  }

  /** Two stacks that own their resources, each under its name. */
  ghost predicate Owning(existing: Stack, previous: Stack)
    reads existing, previous, existing.resources.Values, previous.resources.Values
  {
    && existing != previous
    && (forall n :: n in existing.resources ==>
          existing.resources[n].name == n && existing.resources[n].stack == existing)
    && (forall n :: n in previous.resources ==>
          previous.resources[n].name == n && previous.resources[n].stack == previous)
    && (forall n :: n in existing.resources ==> Settled(Some(existing.resources[n].state)))
    && (forall n :: n in previous.resources ==> Settled(Some(previous.resources[n].state)))
  }

  /** Every live backup has a namesake in the existing stack. */
  ghost predicate Sound(existing: Stack, previous: Stack)
    reads existing, previous, previous.resources.Values
  {
    forall n :: n in previous.resources && Live(previous.resources[n].state) ==> n in existing.resources
  }

  /** New resources, by name, that were never created and belong to neither stack. */
  ghost predicate Uncreated(existing: Stack, previous: Stack, created: map<Name, Resource>)
    reads created.Values
  {
    forall n :: n in created ==>
      && created[n].name == n && created[n].state == State(INIT, COMPLETE)
      && created[n].stack != existing && created[n].stack != previous
  }

  /** r is in one of the two stacks, under its name, and owned by that stack. */
  ghost predicate HeldBy(existing: Stack, previous: Stack, r: Resource)
    reads existing, previous, r
  {
    || (Lookup(existing.resources, r.name) == Some(r) && r.stack == existing)
    || (Lookup(previous.resources, r.name) == Some(r) && r.stack == previous)
  }

  /** Nothing live among rs has been dropped. */
  ghost predicate AllHeld(existing: Stack, previous: Stack, rs: set<Resource>)
    reads existing, previous, rs
  {
    forall r :: r in rs && Live(r.state) ==> HeldBy(existing, previous, r)
  }

  ghost predicate AllDead(rs: set<Resource>)
    reads rs
  {
    forall r :: r in rs ==> !Live(r.state)
  }

  /** How many tasks an update has: one for each new, old and backup resource. */
  ghost function Tasks(existing: Stack, previous: Stack, created: map<Name, Resource>): nat
    reads existing, previous
  {
    |existing.resources| + |previous.resources| + |created|
  }

  class StackUpdate {
    const existing: Stack
    const previous: Stack
    // The resources that the tasks were made for: of the existing stack, of the backup stack and of the new one.
    const olds: map<Name, Resource>
    const backups: map<Name, Resource>
    const created: map<Name, Resource>
    const rollback: bool
    // Every live backup resource had a namesake in the existing stack at first.
    ghost const sound: bool
    var cleanPc: map<Name, CleanPc>
    var newPc: map<Name, NewPc>
    var oldPc: map<Name, OldPc>
    // What the existing resources last answered when they were asked to update themselves.
    ghost var answers: map<Name, UpdateOutcome>

    // All the resources concerned.
    ghost const all: set<Resource>

    /** The resources called n. */
    ghost function Mine(n: Name): set<Resource> {
      set r | r in all && r.name == n
    }

    ghost predicate Original(r: Resource) {
      Lookup(olds, r.name) == Some(r) || Lookup(backups, r.name) == Some(r) || Lookup(created, r.name) == Some(r)
    }

    ghost predicate Complete() {
      forall r {:trigger Original(r)} :: r in all ==> Original(r)
    }

    ghost predicate Wired() {
      && existing != previous
      && (forall n :: n in olds ==> olds[n] in all && olds[n].name == n)
      && (forall n :: n in backups ==> backups[n] in all && backups[n].name == n)
      && (forall n :: n in created ==> created[n] in all && created[n].name == n)
      && (forall n :: n in olds && n in backups ==> olds[n] != backups[n])
      && (forall n :: n in olds && n in created ==> olds[n] != created[n])
      && (forall n :: n in backups && n in created ==> backups[n] != created[n])
    }

    ghost predicate Known(n: Name) {
      && (n in olds ==> olds[n] in Mine(n))
      && (n in backups ==> backups[n] in Mine(n))
      && (n in created ==> created[n] in Mine(n))
    }

    ghost function StateAt(m: map<Name, Resource>, n: Name): Option<State>
      reads if n in m then {m[n]} else {}
    {
      if n in m then Some(m[n].state) else None
    }

    ghost function ViewOf(n: Name): View
      requires Known(n)
      reads this, Mine(n)
    {
      View(StateAt(olds, n), StateAt(backups, n), StateAt(created, n), Lookup(cleanPc, n), Lookup(newPc, n),
           Lookup(oldPc, n))
    }

    /** The resource of n in a slot. */
    ghost function Occupant(n: Name, s: Slot): Option<Resource> {
      match s
      case Nothing => None
      case OldOne => Lookup(olds, n)
      case BackupOne => Lookup(backups, n)
      case NewOne => Lookup(created, n)
    }

    /** The two stacks hold these resources of n, and own them. */
    ghost predicate Placed(n: Name, e: Slot, p: Slot)
      reads existing, previous, Mine(n)
    {
      && Known(n)
      && Lookup(existing.resources, n) == Occupant(n, e)
      && Lookup(previous.resources, n) == Occupant(n, p)
      && (n in existing.resources ==> existing.resources[n].stack == existing)
      && (n in previous.resources ==> previous.resources[n].stack == previous)
    }

    /** What holds for the name n at every yield. */
    ghost predicate NameInv(n: Name)
      reads this, existing, previous, Mine(n)
    {
      && Known(n) && Good(ViewOf(n), rollback, sound)
      && Placed(n, InExisting(ViewOf(n)), InPrevious(ViewOf(n)))
    }

    method SetCleanAt(n: Name, pc: CleanPc, ghost v: View)
      requires Wired() && Known(n) && n in cleanPc
      requires v == ViewOf(n).(cleanAt := Some(pc)) && Good(v, rollback, sound)
        && Placed(n, InExisting(v), InPrevious(v))
      modifies this`cleanPc
      ensures NameInv(n) && ViewOf(n) == v && forall m :: m != n ==> Slots(m) == old(Slots(m))
    {
      cleanPc := cleanPc[n := pc];
      assert ViewOf(n) == v;
    }

    method SetNewAt(n: Name, pc: NewPc, ghost v: View)
      requires Wired() && Known(n) && n in newPc
      requires v == ViewOf(n).(newAt := Some(pc)) && Good(v, rollback, sound) && Placed(n, InExisting(v), InPrevious(v))
      modifies this`newPc
      ensures NameInv(n) && ViewOf(n) == v && forall m :: m != n ==> Slots(m) == old(Slots(m))
    {
      newPc := newPc[n := pc];
      assert ViewOf(n) == v;
    }

    method SetOldAt(n: Name, pc: OldPc, ghost v: View)
      requires Wired() && Known(n) && n in oldPc
      requires v == ViewOf(n).(oldAt := Some(pc)) && Good(v, rollback, sound) && Placed(n, InExisting(v), InPrevious(v))
      modifies this`oldPc
      ensures NameInv(n) && ViewOf(n) == v && forall m :: m != n ==> Slots(m) == old(Slots(m))
    {
      oldPc := oldPc[n := pc];
      assert ViewOf(n) == v;
    }

    /** Where the task for the new resource n is goes back to the answer that the existing one gave. */
    ghost predicate AnswerInv(n: Name)
      reads this
    {
      n in newPc ==>
        if n in answers then Answered(newPc[n], answers[n])
        else newPc[n].NewIdle? || (Replacing(newPc[n]) && n !in olds)
    }

    ghost predicate Inv()
      reads this, existing, previous, all
    {
      && Wired() && Complete()
      && (forall n {:trigger NameInv(n)} :: NameInv(n))
      && (forall n {:trigger AnswerInv(n)} :: AnswerInv(n))
      && (forall n :: n in oldPc ==> !oldPc[n].BackupGone?)
    }

    /** At every yield, every live resource is held: nothing live is overwritten or dropped. */
    lemma LiveIsHeld()
      requires Inv()
      ensures AllHeld(existing, previous, all)
    {
      forall r | r in all && Live(r.state) ensures HeldBy(existing, previous, r) {
        assert Original(r) && NameInv(r.name);
      }
    }

    /** Another update of the same stacks may start from here, and soundly so if this one did. */
    lemma CanStartAgain()
      requires Inv()
      ensures Owning(existing, previous) && (sound ==> Sound(existing, previous))
      ensures existing.resources.Values + previous.resources.Values <= all
    {
      forall n | n in existing.resources
        ensures existing.resources[n] in all && existing.resources[n].name == n
          && existing.resources[n].stack == existing
        ensures Settled(Some(existing.resources[n].state))
      {
        assert NameInv(n);
      }
      forall n | n in previous.resources
        ensures previous.resources[n] in all && previous.resources[n].name == n
          && previous.resources[n].stack == previous
        ensures Settled(Some(previous.resources[n].state))
        ensures sound && Live(previous.resources[n].state) ==> n in existing.resources
      {
        assert NameInv(n);
      }
    }

    /** Everything has been done. */
    ghost predicate AllDone()
      reads this
    {
      && (rollback || forall n :: n in cleanPc ==> cleanPc[n].CleanDone?)
      && (forall n :: n in newPc ==> NewDone(newPc[n]))
      && (forall n :: n in oldPc ==> oldPc[n].OldDone?)
    }

    /**
      When it is done, the existing stack has the names of the new one, and
      nothing live is left in the backup stack.
    */
    lemma DoneIsClean()
      requires Inv() && AllDone() && (rollback ==> sound)
      ensures existing.resources.Keys == created.Keys
      ensures forall n :: n in previous.resources ==> !Live(previous.resources[n].state)
    {
      forall n ensures n in existing.resources <==> n in created
      {
        assert NameInv(n);
      }
      forall n | n in previous.resources ensures !Live(previous.resources[n].state) {
        assert NameInv(n);
      }
    }

    /** A replaced resource that is not being cleaned up yet is a valid backup. */
    lemma ReplacedIsBackup(n: Name)
      requires Inv() && n in olds && n in newPc && (newPc[n].Creating? || newPc[n].Created?)
      requires n in oldPc && oldPc[n].OldIdle?
      ensures Lookup(existing.resources, n) == Lookup(created, n) != None
      ensures Lookup(previous.resources, n) == Some(olds[n]) && olds[n].state == State(UPDATE, COMPLETE)
    {
      assert NameInv(n);
    }

    lemma SwappedIsBackup(n: Name)
      requires Inv() && n in newPc && newPc[n].SwappedIn?
      ensures Lookup(existing.resources, n) == Lookup(backups, n) != None
    {
      assert NameInv(n);
    }

    /**
      When it is done, what the existing stack has under a name is what the
      answer of the old resource demands: the old resource itself if it found
      nothing to do or has updated itself; else a valid backup, or the new
      resource, created. The new one also if there was no old one.
    */
    ghost predicate AsAnswered(n: Name)
      requires n in created
      reads this, existing, all, created[n], backups.Values
    {
      var isNew := Lookup(existing.resources, n) == Some(created[n]) && created[n].state == State(CREATE, COMPLETE);
      if n !in olds then isNew
      else
        && n in answers
        && match answers[n]
           case Unchanged => Lookup(existing.resources, n) == Some(olds[n])
           case Ran(o) => o.Returns? && Lookup(existing.resources, n) == Some(olds[n])
           case NeedsReplacement(_) =>
             isNew || (n in backups && Lookup(existing.resources, n) == Some(backups[n])
                       && Live(backups[n].state) && backups[n].state.status == COMPLETE)
           case Refused => false
    }

    lemma DoneAsAnswered()
      requires Inv() && AllDone()
      ensures forall n :: n in created ==> AsAnswered(n)
    {
      forall n | n in created ensures AsAnswered(n) {
        assert NameInv(n) && AnswerInv(n);
      }
    }

    // -------------------------------------------------------------- steps

    /** __init__: before any task has been started. */
    constructor (existing_: Stack, previous_: Stack, created_: map<Name, Resource>, rollback_: bool)
      requires Owning(existing_, previous_) && Uncreated(existing_, previous_, created_)
      ensures Inv() && existing == existing_ && previous == previous_ && created == created_ && rollback == rollback_
      ensures olds == existing_.resources && backups == previous_.resources
      ensures all == olds.Values + backups.Values + created.Values
      ensures sound <==> Sound(existing, previous)
      ensures AllAt(cleanPc, backups.Keys, CleanIdle) && AllAt(newPc, created.Keys, NewIdle)
      ensures AllAt(oldPc, olds.Keys, OldIdle) && answers.Keys == {}
    {
      existing, previous, created, rollback := existing_, previous_, created_, rollback_;
      olds, backups := existing_.resources, previous_.resources;
      all := existing_.resources.Values + previous_.resources.Values + created_.Values;
      sound := Sound(existing_, previous_);
      var clean := StartAt(previous_.resources.Keys, CleanIdle);
      var new_ := StartAt(created_.Keys, NewIdle);
      var old_ := StartAt(existing_.resources.Keys, OldIdle);
      cleanPc, newPc, oldPc := clean, new_, old_;
      answers := map[];
      new;
      InvAtStart();
    }

    lemma InvAtStart()
      requires Owning(existing, previous) && Uncreated(existing, previous, created)
      requires olds == existing.resources && backups == previous.resources && sound == Sound(existing, previous)
      requires all == olds.Values + backups.Values + created.Values
      requires AllAt(cleanPc, backups.Keys, CleanIdle) && AllAt(newPc, created.Keys, NewIdle)
      requires AllAt(oldPc, olds.Keys, OldIdle) && answers.Keys == {}
      ensures Inv()
    {
      forall r | r in all ensures Original(r) {
        assert r in olds.Values || r in backups.Values || r in created.Values;
      }
      forall n ensures NameInv(n) {
        GoodAtStart(ViewOf(n), rollback, sound);
      }
      forall n ensures AnswerInv(n) {
      }
    }

    /** All that is recorded for the name n. */
    ghost function Slots(n: Name): (Option<Resource>, Option<Resource>, Option<CleanPc>, Option<NewPc>, Option<OldPc>)
      reads this, existing, previous
    {
      (Lookup(existing.resources, n), Lookup(previous.resources, n), Lookup(cleanPc, n), Lookup(newPc, n),
       Lookup(oldPc, n))
    }

    /** state_set on the resource of n in a slot. */
    method SetState(n: Name, ghost slot: Slot, r: Resource, s: State)
      requires Wired() && Known(n) && Occupant(n, slot) == Some(r)
      modifies r`state
      ensures r.state == s && ViewOf(n) == WithState(old(ViewOf(n)), slot, s)
    {
      r.StateSet(s.action, s.status);
    }

    /** One segment of destroying the resource of n in a slot. The plugin's answer decides how it ends. */
    method Destroy(n: Name, ghost slot: Slot, r: Resource, first: bool, answer: Outcome) returns (o: Outcome)
      requires Wired() && Known(n) && Occupant(n, slot) == Some(r)
      modifies r`state
      ensures r.state == DeleteSegment(old(r.state), first, o)
      ensures ViewOf(n) == WithState(old(ViewOf(n)), slot, r.state)
      ensures o == if first && (old(r.state) == State(DELETE, COMPLETE) || old(r.state).action == INIT) then Returns
                   else answer
    {
      if first && (r.state == State(DELETE, COMPLETE) || r.state.action == INIT) {
        return Returns;
      }
      o := answer;
      SetState(n, slot, r, DeleteSegment(r.state, first, o));
    }

    /** One segment of _remove_backup_resource for the backup resource of n. */
    method AdvanceClean(n: Name, p: Answers) returns (a: Advance)
      requires Wired() && NameInv(n) && n in cleanPc && !cleanPc[n].CleanDone? && !rollback
      modifies this`cleanPc, Mine(n)
      ensures NameInv(n) && forall m :: m != n ==> Slots(m) == old(Slots(m))
      ensures a != KeyError && CleanReflects(old(ViewOf(n)), ViewOf(n), p, a)
      ensures n in cleanPc && (a == Finished <==> cleanPc[n].CleanDone?)
    {
      ghost var v := ViewOf(n);
      var r := previous.resources[n];
      var first := cleanPc[n].CleanIdle?;
      var o := Returns;
      if !first || Live(r.state) {
        o := Destroy(n, BackupOne, r, first, p.deleteBackup);
      }
      var pc := if o.Returns? then CleanDone else Cleaning;
      CleanKeeps(v, r.state, pc, sound);
      SetCleanAt(n, pc, v.(backup := Some(r.state), cleanAt := Some(pc)));
      a := AdvanceOf(o);
    }

    /** _exchange_stacks */
    method ExchangeStacks(existingRes: Resource, prevRes: Resource)
      requires existingRes.stack == existing && prevRes.stack == previous && existing != previous
      modifies existing, previous, existingRes`stack, prevRes`stack
      ensures existing.resources == old(existing.resources)[prevRes.name := prevRes]
      ensures previous.resources == old(previous.resources)[existingRes.name := existingRes]
      ensures existingRes.stack == previous && prevRes.stack == existing
    {
      var prevStack, existingStack := prevRes.stack, existingRes.stack;
      prevStack.SetItem(existingRes.name, existingRes);
      existingStack.SetItem(prevRes.name, prevRes);
    }

    /** One segment of new_res.create(). */
    method CreateStep(n: Name, first: bool, p: Answers) returns (a: Advance)
      requires Wired() && NameInv(n) && Cleaned(ViewOf(n), rollback) && n in newPc && newPc[n].Creating?
      requires first ==> created[n].state == State(INIT, COMPLETE)
      modifies this`newPc, Mine(n)
      ensures NameInv(n) && forall m :: m != n ==> Slots(m) == old(Slots(m))
      ensures a == CreateAdvance(first, p) && ViewOf(n) == CreatedView(old(ViewOf(n)), first, p)
    {
      ghost var v := ViewOf(n);
      var r := created[n];
      var refused := first && p.refuses;
      SetState(n, NewOne, r, CreateSegment(r.state, refused, p.create));
      a := if refused then Raising else AdvanceOf(p.create);
      var pc := if a.Finished? then Created else Creating;
      CreateKeeps(v, r.state, pc, rollback, sound);
      SetNewAt(n, pc, v.(newer := Some(r.state), newAt := Some(pc)));
    }

    /** Back up the existing resource, put the new one in its place and create it. */
    method BackUpAndCreate(n: Name, p: Answers) returns (a: Advance)
      requires Wired() && NameInv(n) && Cleaned(ViewOf(n), rollback) && NotInPlace(ViewOf(n))
      requires Dead(StateAt(backups, n))
      modifies this`newPc, existing, previous, Mine(n)
      ensures NameInv(n) && forall m :: m != n ==> Slots(m) == old(Slots(m))
      ensures a == CreateAdvance(true, p) && ViewOf(n) == CreatedView(BackedUp(old(ViewOf(n))), true, p)
    {
      BackUp(n);
      a := CreateStep(n, true, p);
    }

    method BackUpExisting(n: Name, existingRes: Resource)
      requires Wired() && Known(n) && Occupant(n, OldOne) == Some(existingRes)
      modifies previous, existingRes
      ensures previous.resources == old(previous.resources)[n := existingRes] && existingRes.stack == previous
      ensures ViewOf(n) == WithState(old(ViewOf(n)), OldOne, State(UPDATE, COMPLETE))
    {
      previous.SetItem(n, existingRes);
      SetState(n, OldOne, existingRes, State(UPDATE, COMPLETE));
    }

    method BackUp(n: Name)
      requires Wired() && NameInv(n) && Cleaned(ViewOf(n), rollback) && NotInPlace(ViewOf(n))
      requires Dead(StateAt(backups, n))
      modifies this`newPc, existing, previous, Mine(n)
      ensures NameInv(n) && ViewOf(n) == BackedUp(old(ViewOf(n)))
      ensures forall m :: m != n ==> Slots(m) == old(Slots(m))
    {
      ghost var v := ViewOf(n);
      BackUpKeeps(v, rollback, sound);
      if n in existing.resources {
        BackUpExisting(n, existing.resources[n]);
      }
      PutNew(n, BackedUp(v));
    }

    /** self.existing_stack[res_name] = new_res */
    method PutNew(n: Name, ghost v: View)
      requires Wired() && Known(n) && n in newPc && n in created
      requires v == ViewOf(n).(newAt := Some(Creating)) && Good(v, rollback, sound)
      requires Lookup(previous.resources, n) == Occupant(n, InPrevious(v))
      requires n in previous.resources ==> previous.resources[n].stack == previous
      modifies this`newPc, existing, created[n]
      ensures NameInv(n) && ViewOf(n) == v && forall m :: m != n ==> Slots(m) == old(Slots(m))
    {
      existing.SetItem(n, created[n]);
      newPc := newPc[n := Creating];
      assert ViewOf(n) == v;
    }

    /** One segment of destroying a backup resource that is not in a valid state. */
    method DestroyBackup(n: Name, first: bool, p: Answers) returns (a: Advance)
      requires Wired() && NameInv(n) && Cleaned(ViewOf(n), rollback) && NotInPlace(ViewOf(n))
      requires Alive(StateAt(backups, n))
      modifies this`newPc, existing, previous, Mine(n)
      ensures NameInv(n) && forall m :: m != n ==> Slots(m) == old(Slots(m))
      ensures (ViewOf(n), a) == DestroyTurn(old(ViewOf(n)), first, p)
    {
      ghost var v := ViewOf(n);
      var r := previous.resources[n];
      var o := Destroy(n, BackupOne, r, first, p.deleteBackup);
      var pc := if o.Returns? then NewIdle else DestroyingBackup;
      DestroyBackupKeeps(v, r.state, pc, rollback, sound);
      SetNewAt(n, pc, v.(backup := Some(r.state), newAt := Some(pc)));
      if o.Returns? {
        a := BackUpAndCreate(n, p);
      } else {
        a := AdvanceOf(o);
      }
    }

    /** _exchange_stacks, for the swap of a valid backup. */
    method Swap(n: Name)
      requires Wired() && NameInv(n) && Cleaned(ViewOf(n), rollback) && NotInPlace(ViewOf(n))
      requires n in existing.resources && n in previous.resources
      requires Live(previous.resources[n].state) && previous.resources[n].state.status == COMPLETE
      modifies this`newPc, existing, previous, Mine(n)
      ensures NameInv(n) && ViewOf(n) == old(ViewOf(n)).(newAt := Some(SwappedIn))
      ensures forall m :: m != n ==> Slots(m) == old(Slots(m))
    {
      ghost var v := ViewOf(n);
      SwapKeeps(v, rollback, sound);
      Exchange(n);
      SetNewAt(n, SwappedIn, v.(newAt := Some(SwappedIn)));
    }

    method Exchange(n: Name)
      requires Wired() && Placed(n, OldOne, BackupOne) && n in olds && n in backups
      modifies existing, previous, Mine(n)
      ensures Placed(n, BackupOne, OldOne) && ViewOf(n) == old(ViewOf(n))
      ensures forall m :: m != n ==> Slots(m) == old(Slots(m))
    {
      ExchangeStacks(existing.resources[n], previous.resources[n]);
    }

    /** There is a valid backup to swap in for the existing resource. */
    ghost predicate SwapsIn(n: Name)
      reads existing, previous, previous.resources.Values
    {
      && n in previous.resources && n in existing.resources
      && Live(previous.resources[n].state) && previous.resources[n].state.status == COMPLETE
    }

    /** What the turn depends on, in terms of the stacks. */
    lemma TurnOfStacks(n: Name, p: Answers)
      requires Wired() && NameInv(n) && NotInPlace(ViewOf(n))
      ensures CreateTurn(ViewOf(n), p).1 == KeyError <==> LooksUpMissing(n)
      ensures Swapped(CreateTurn(ViewOf(n), p).0) <==> SwapsIn(n)
    {
    }

    /** _create_resource up to its first yield. */
    method CreateResource(n: Name, p: Answers) returns (a: Advance)
      requires Wired() && NameInv(n) && Cleaned(ViewOf(n), rollback) && NotInPlace(ViewOf(n))
      modifies this`newPc, existing, previous, Mine(n)
      ensures NameInv(n) && forall m :: m != n ==> Slots(m) == old(Slots(m))
      ensures a == KeyError <==> old(LooksUpMissing(n))
      ensures Swapped(ViewOf(n)) <==> old(SwapsIn(n))
      ensures (ViewOf(n), a) == CreateTurn(old(ViewOf(n)), p)
    {
      TurnOfStacks(n, p);
      if n in previous.resources {
        var prevRes := previous.resources[n];
        if Live(prevRes.state) {
          if prevRes.state.status == COMPLETE {
            // Swap in the backup resource
            if n !in existing.resources {
              return KeyError;
            }
            Swap(n);
            return Finished;
          }
          a := DestroyBackup(n, true, p);
          return;
        }
      }
      a := BackUpAndCreate(n, p);
    }

    /** The lookup in the existing stack at the swap fails: there is a valid backup of nothing. */
    ghost predicate LooksUpMissing(n: Name)
      reads existing, previous, previous.resources.Values
    {
      && n in previous.resources && n !in existing.resources
      && Live(previous.resources[n].state) && previous.resources[n].state.status == COMPLETE
    }

    /** What a segment of existing_res.update(...) leaves. */
    method RecordUpdate(n: Name, o: UpdateOutcome)
      requires Wired() && NameInv(n) && Cleaned(ViewOf(n), rollback)
      requires n in newPc && (newPc[n].NewIdle? || newPc[n].Updating?)
      requires n in existing.resources
      modifies this`newPc, Mine(n)
      ensures NameInv(n) && forall m :: m != n ==> Slots(m) == old(Slots(m))
      ensures ViewOf(n) == UpdatedView(old(ViewOf(n)), o)
    {
      ghost var v := ViewOf(n);
      var r := existing.resources[n];
      SetState(n, OldOne, r, UpdateSegment(r.state, o));
      UpdateKeeps(v, o, rollback, sound);
      SetNewAt(n, if o.Unchanged? || o == Ran(Returns) then UpdatedInPlace else Updating, UpdatedView(v, o));
    }

    /** One segment of existing_res.update(...), and what follows it up to the next yield. */
    method UpdateStep(n: Name, p: Answers) returns (a: Advance)
      requires Wired() && NameInv(n) && Cleaned(ViewOf(n), rollback)
      requires n in newPc && (newPc[n].NewIdle? || newPc[n].Updating?)
      requires n in existing.resources
      modifies this`newPc, existing, previous, Mine(n)
      ensures NameInv(n) && forall m :: m != n ==> Slots(m) == old(Slots(m))
      ensures a != KeyError && (ViewOf(n), a) == UpdateTurn(old(ViewOf(n)), p)
    {
      RecordUpdate(n, p.update);
      match p.update {
        case Unchanged => a := Finished;
        case Refused => a := Raising;
        case NeedsReplacement(_) => a := CreateResource(n, p);
        case Ran(ran) => a := AdvanceOf(ran);
      }
    }

    /** One segment of _process_new_resource_update for the new resource called n. */
    method AdvanceNew(n: Name, p: Answers) returns (a: Advance)
      requires Wired() && NameInv(n) && Cleaned(ViewOf(n), rollback) && n in newPc && !NewDone(newPc[n])
      modifies this`newPc, existing, previous, Mine(n)
      ensures NameInv(n) && forall m :: m != n ==> Slots(m) == old(Slots(m))
      ensures sound ==> a != KeyError
      ensures (ViewOf(n), a) == NewTurn(old(ViewOf(n)), p)
    {
      SoundTurn(ViewOf(n), p, rollback, sound);
      match newPc[n] {
        case NewIdle =>
          if n in existing.resources {
            a := UpdateStep(n, p);
          } else {
            a := CreateResource(n, p);
          }
        case Updating =>
          a := UpdateStep(n, p);
        case DestroyingBackup =>
          a := DestroyBackup(n, false, p);
        case Creating =>
          a := CreateStep(n, false, p);
      }
    }

    /** A segment for the new resource called n, and the record of what the existing one answered. */
    method AskAndAdvance(n: Name, p: Answers) returns (a: Advance)
      requires Wired() && NameInv(n) && AnswerInv(n) && Cleaned(ViewOf(n), rollback) && n in newPc && !NewDone(newPc[n])
      modifies this`newPc, this`answers, existing, previous, Mine(n)
      ensures NameInv(n) && AnswerInv(n) && (sound ==> a != KeyError)
      ensures n in newPc && (a == Finished <==> NewDone(newPc[n])) && (Prompt(p) ==> a == Finished || a == KeyError)
      ensures forall m :: m != n ==> Slots(m) == old(Slots(m)) && Lookup(answers, m) == old(Lookup(answers, m))
      ensures answers == if old(Asks(ViewOf(n))) then old(answers)[n := p.update] else old(answers)
      ensures p.update.NeedsReplacement? ==> old(CanMeet(ViewOf(n))) ==> Met(old(ViewOf(n)), ViewOf(n))
    {
      ghost var v := ViewOf(n);
      TurnAnswers(v, p);
      PromptTurns(v, p, rollback, sound);
      if Asks(v) {
        answers := answers[n := p.update];
      }
      assert ViewOf(n) == v && NameInv(n);
      a := AdvanceNew(n, p);
    }

    /**
      One segment of existing_res.destroy(), and at its end the removal from the
      existing stack. It only happens to names that the new stack does not have:
      otherwise the resource has been updated in place, or moved to the backup stack.
    */
    method DestroyOld(n: Name, first: bool, p: Answers) returns (a: Advance)
      requires Wired() && NameInv(n) && Cleaned(ViewOf(n), rollback) && n in oldPc && n !in created
      requires if first then oldPc[n].BackupGone? else oldPc[n].DestroyingSelf?
      modifies this`oldPc, existing, Mine(n)
      ensures NameInv(n) && forall m :: m != n ==> Slots(m) == old(Slots(m))
      ensures a != KeyError && (n in oldPc ==> !oldPc[n].BackupGone?)
      ensures (ViewOf(n), a) == DestroyOldTurn(old(ViewOf(n)), first, p.deleteOld)
    {
      ghost var v := ViewOf(n);
      var r := olds[n];
      var o := Destroy(n, OldOne, r, first, p.deleteOld);
      var pc := if o.Returns? then OldDone else DestroyingSelf;
      DestroyOldKeeps(v, r.state, pc, rollback, sound);
      LeaveOld(n, pc, v.(older := Some(r.state), oldAt := Some(pc)));
      a := AdvanceOf(o);
    }

    /** del self.existing_stack[res_name], at the end of the destruction. */
    method LeaveOld(n: Name, pc: OldPc, ghost v: View)
      requires Wired() && Known(n) && n in oldPc && v == ViewOf(n).(oldAt := Some(pc)) && Good(v, rollback, sound)
      requires Placed(n, OldOne, InPrevious(v)) && InExisting(v) == if pc.OldDone? then Nothing else OldOne
      modifies this`oldPc, existing
      ensures NameInv(n) && ViewOf(n) == v && forall m :: m != n ==> Slots(m) == old(Slots(m))
    {
      if pc.OldDone? {
        existing.DelItem(n);
      }
      SetOldAt(n, pc, v);
    }

    /** What follows the cleanup of the backup resource. */
    method AfterBackup(n: Name, p: Answers) returns (a: Advance)
      requires Wired() && NameInv(n) && Cleaned(ViewOf(n), rollback) && n in oldPc && oldPc[n].BackupGone?
      modifies this`oldPc, existing, Mine(n)
      ensures NameInv(n) && forall m :: m != n ==> Slots(m) == old(Slots(m))
      ensures a != KeyError && (n in oldPc ==> !oldPc[n].BackupGone?)
      ensures (ViewOf(n), a) == if n in created then (old(ViewOf(n)).(oldAt := Some(OldDone)), Finished)
                                else DestroyOldTurn(old(ViewOf(n)), true, p.deleteOld)
    {
      if n in created && created[n].state == State(INIT, COMPLETE) {
        // Already updated in-place
        FinishOldKeeps(ViewOf(n), rollback, sound);
        SetOldAt(n, OldDone, ViewOf(n).(oldAt := Some(OldDone)));
        return Finished;
      }
      if olds[n].stack != previous {
        a := DestroyOld(n, true, p);
      } else {
        FinishOldKeeps(ViewOf(n), rollback, sound);
        SetOldAt(n, OldDone, ViewOf(n).(oldAt := Some(OldDone)));
        a := Finished;
      }
    }

    /** One segment of _remove_backup_resource for what is now the backup resource of n. */
    method CleanBackup(n: Name, p: Answers) returns (o: Outcome)
      requires Wired() && NameInv(n) && Cleaned(ViewOf(n), rollback)
      requires n in oldPc && (oldPc[n].OldIdle? || oldPc[n].CleaningBackup?)
      requires n in newPc ==> NewDone(newPc[n])
      modifies this`oldPc, Mine(n)
      ensures NameInv(n) && forall m :: m != n ==> Slots(m) == old(Slots(m))
      ensures n in oldPc && if o.Returns? then oldPc[n].BackupGone? else oldPc[n].CleaningBackup?
      ensures newPc == old(newPc)
      ensures (ViewOf(n), o) == CleanTurn(old(ViewOf(n)), p.deleteBackup)
    {
      ghost var v := ViewOf(n);
      CleanTurnKeeps(v, p.deleteBackup, rollback, sound);
      o := RemoveBackup(n, oldPc[n].OldIdle?, p.deleteBackup);
      SetOldAt(n, if o.Returns? then BackupGone else CleaningBackup, CleanTurn(v, p.deleteBackup).0);
    }

    method RemoveBackup(n: Name, first: bool, answer: Outcome) returns (o: Outcome)
      requires Wired() && NameInv(n) && n in oldPc && (first <==> oldPc[n].OldIdle?)
      requires !first ==> Alive(StateOf(ViewOf(n), InPrevious(ViewOf(n))))
      modifies Mine(n)
      ensures var (v', o') := CleanTurn(old(ViewOf(n)), answer); o == o' && ViewOf(n).(oldAt := v'.oldAt) == v'
      ensures Placed(n, InExisting(old(ViewOf(n))), InPrevious(old(ViewOf(n))))
    {
      o := Returns;
      if n in previous.resources {
        var r := previous.resources[n];
        if !first || Live(r.state) {
          o := Destroy(n, InPrevious(ViewOf(n)), r, first, answer);
        }
      }
    }

    /** One segment of _process_existing_resource_update for the old resource called n. */
    method AdvanceOld(n: Name, p: Answers) returns (a: Advance)
      requires Wired() && NameInv(n) && Cleaned(ViewOf(n), rollback)
      requires n in oldPc && !oldPc[n].OldDone? && !oldPc[n].BackupGone?
      requires n in newPc ==> NewDone(newPc[n])
      modifies this`oldPc, existing, Mine(n)
      ensures NameInv(n) && forall m :: m != n ==> Slots(m) == old(Slots(m))
      ensures a != KeyError && (n in oldPc ==> !oldPc[n].BackupGone?)
      ensures (ViewOf(n), a) == OldTurn(old(ViewOf(n)), p)
    {
      if oldPc[n].DestroyingSelf? {
        a := DestroyOld(n, false, p);
      } else {
        var o := CleanBackup(n, p);
        match o {
          case Yields => a := Yielded;
          case Raises => a := Raising;
          case Returns => a := AfterBackup(n, p);
        }
      }
    }

    /** The same, and what a run needs to know of it. */
    method TakeOld(n: Name, p: Answers) returns (a: Advance)
      requires Wired() && NameInv(n) && Cleaned(ViewOf(n), rollback)
      requires n in oldPc && !oldPc[n].OldDone? && !oldPc[n].BackupGone?
      requires n in newPc ==> NewDone(newPc[n])
      modifies this`oldPc, existing, Mine(n)
      ensures NameInv(n) && forall m :: m != n ==> Slots(m) == old(Slots(m))
      ensures a != KeyError && n in oldPc && !oldPc[n].BackupGone?
      ensures (a == Finished <==> oldPc[n].OldDone?) && (Prompt(p) ==> a == Finished)
    {
      OldTurnEnds(ViewOf(n), p, rollback, sound);
      PromptTurns(ViewOf(n), p, rollback, sound);
      a := AdvanceOld(n, p);
    }

    // -------------------------------------------------------------- runs

    /** A step moves the tasks of one name only. */
    twostate lemma OnlyTask(n: Name)
      requires forall m :: m != n ==> Slots(m) == old(Slots(m))
      ensures n in cleanPc && n in old(cleanPc) ==> cleanPc == old(cleanPc)[n := cleanPc[n]]
      ensures n in newPc && n in old(newPc) ==> newPc == old(newPc)[n := newPc[n]]
      ensures n in oldPc && n in old(oldPc) ==> oldPc == old(oldPc)[n := oldPc[n]]
    {
      forall m | m != n
        ensures Lookup(cleanPc, m) == Lookup(old(cleanPc), m) && Lookup(newPc, m) == Lookup(old(newPc), m)
        ensures Lookup(oldPc, m) == Lookup(old(oldPc), m)
      {
        assert Slots(m) == old(Slots(m));
      }
      SameElsewhere(old(cleanPc), cleanPc, n);
      SameElsewhere(old(newPc), newPc, n);
      SameElsewhere(old(oldPc), oldPc, n);
    }

    /** So it finishes one task at most. */
    twostate lemma OneTaskLess(n: Name)
      requires forall m :: m != n ==> Slots(m) == old(Slots(m))
      ensures n in old(OpenClean(cleanPc)) && n in cleanPc ==>
        OpenClean(cleanPc) == old(OpenClean(cleanPc)) - (if cleanPc[n].CleanDone? then {n} else {})
      ensures n in old(OpenNew(newPc)) && n in newPc ==>
        OpenNew(newPc) == old(OpenNew(newPc)) - (if NewDone(newPc[n]) then {n} else {})
      ensures n in old(OpenOld(oldPc)) && n in oldPc ==>
        OpenOld(oldPc) == old(OpenOld(oldPc)) - (if oldPc[n].OldDone? then {n} else {})
    {
      OnlyTask(n);
    }

    /** Whatever a step for one name does, the other names are as they were. */
    twostate lemma OthersStay(n: Name)
      requires old(Inv()) && NameInv(n) && AnswerInv(n) && (n in oldPc ==> !oldPc[n].BackupGone?)
      requires forall m :: m != n ==> Slots(m) == old(Slots(m)) && Lookup(answers, m) == old(Lookup(answers, m))
      requires forall r :: r in all && r.name != n ==> unchanged(r)
      ensures Inv() && forall m :: m != n ==> Known(m) && ViewOf(m) == old(ViewOf(m))
    {
      forall m | m != n ensures Known(m) && ViewOf(m) == old(ViewOf(m)) && NameInv(m) {
        assert old(NameInv(m));
        assert Slots(m) == old(Slots(m));
      }
      forall m ensures AnswerInv(m) {
        assert old(AnswerInv(m));
        assert m == n || Slots(m) == old(Slots(m));
      }
      forall m | m in oldPc ensures !oldPc[m].BackupGone? {
        assert m == n || Slots(m) == old(Slots(m));
      }
    }

    /** The cleanup of backups comes first. */
    predicate CleanEnabled(n: Name)
      reads this
    {
      !rollback && n in cleanPc && !cleanPc[n].CleanDone?
    }

    predicate CleaningOver()
      reads this
    {
      rollback || forall n :: n in cleanPc ==> cleanPc[n].CleanDone?
    }

    predicate NewEnabled(n: Name)
      reads this
    {
      CleaningOver() && n in newPc && !NewDone(newPc[n])
    }

    /** An old resource comes after its replacement. */
    predicate OldEnabled(n: Name)
      reads this
    {
      CleaningOver() && n in oldPc && !oldPc[n].OldDone? && (n in newPc ==> NewDone(newPc[n]))
    }

    method StepClean(n: Name, p: Answers) returns (a: Advance)
      requires Inv() && CleanEnabled(n)
      modifies this`cleanPc, all
      ensures Inv() && a != KeyError && (Prompt(p) ==> a == Finished)
      ensures OpenClean(cleanPc) == old(OpenClean(cleanPc)) - (if a == Finished then {n} else {})
    {
      assert NameInv(n) && AnswerInv(n);
      a := AdvanceClean(n, p);
      OneTaskLess(n);
      OthersStay(n);
    }

    method StepNew(n: Name, p: Answers) returns (a: Advance)
      requires Inv() && NewEnabled(n)
      modifies this`newPc, this`answers, existing, previous, all
      ensures Inv() && (sound ==> a != KeyError) && (Prompt(p) ==> a == Finished || a == KeyError)
      ensures OpenNew(newPc) == old(OpenNew(newPc)) - (if a == Finished then {n} else {})
      ensures Known(n) && (p.update.NeedsReplacement? && old(CanMeet(ViewOf(n))) ==> Met(old(ViewOf(n)), ViewOf(n)))
      ensures answers == if old(Asks(ViewOf(n))) then old(answers)[n := p.update] else old(answers)
    {
      assert NameInv(n) && AnswerInv(n);
      a := AskAndAdvance(n, p);
      OneTaskLess(n);
      OthersStay(n);
    }

    /** When the existing resource is asked first, and demands its replacement. */
    method StepReplace(n: Name, p: Answers) returns (a: Advance)
      requires Inv() && NewEnabled(n) && newPc[n].NewIdle? && n in existing.resources && p.update.NeedsReplacement?
      modifies this`newPc, this`answers, existing, previous, all
      ensures Inv()
      ensures old(n !in previous.resources) ==> n in newPc && (newPc[n].Creating? || newPc[n].Created?)
      ensures old(SwapsIn(n)) ==>
        n in newPc && newPc[n].SwappedIn? && n in backups && backups[n].state == old(previous.resources[n].state)
    {
      assert NameInv(n);
      assert old(n !in previous.resources || SwapsIn(n)) ==> CanMeet(ViewOf(n));
      a := StepNew(n, p);
    }

    method StepOld(n: Name, p: Answers) returns (a: Advance)
      requires Inv() && OldEnabled(n)
      modifies this`oldPc, existing, all
      ensures Inv() && a != KeyError && (Prompt(p) ==> a == Finished)
      ensures OpenOld(oldPc) == old(OpenOld(oldPc)) - (if a == Finished then {n} else {})
    {
      assert NameInv(n) && AnswerInv(n);
      a := TakeOld(n, p);
      OneTaskLess(n);
      OthersStay(n);
    }

    /** How many tasks are not finished; in a rollback, nothing is cleaned up first. */
    ghost function Undone(): nat
      reads this
    {
      (if rollback then 0 else |OpenClean(cleanPc)|) + |OpenNew(newPc)| + |OpenOld(oldPc)|
    }

    lemma UndoneAtStart()
      requires cleanPc.Keys == backups.Keys && newPc.Keys == created.Keys && oldPc.Keys == olds.Keys
      requires olds == existing.resources && backups == previous.resources
      ensures Undone() <= Tasks(existing, previous, created)
    {
      SubsetSize(OpenClean(cleanPc), backups.Keys);
      SubsetSize(OpenNew(newPc), created.Keys);
      SubsetSize(OpenOld(oldPc), olds.Keys);
      assert |backups| == |backups.Keys| && |created| == |created.Keys| && |olds| == |olds.Keys|;
    }

    /**
      At most limit segments of the update, of whatever tasks may be advanced;
      plugin says how the operations go in each. Yielded: there is more to do.
      Raising: a task raised, so some operation did not succeed. If all of them
      succeed at once, the update finishes within one segment for each task.
    */
    method Run(limit: nat, plugin: nat -> Answers) returns (a: Advance)
      requires Inv()
      modifies this`cleanPc, this`newPc, this`oldPc, this`answers, existing, previous, all
      ensures Inv()
      ensures a == Finished ==> AllDone() && forall n :: n in created ==> AsAnswered(n)
      ensures sound ==> a != KeyError
      ensures a == Raising ==> !AllPrompt(plugin, limit)
      ensures sound && Enough(plugin, limit, old(Undone())) ==> a == Finished
    {
      for i := 0 to limit
        invariant Inv()
        invariant AllPrompt(plugin, limit) ==> i + Undone() <= old(Undone())
      {
        var p := plugin(i);
        if
        case n: Name :| n in cleanPc && CleanEnabled(n) =>
          a := StepClean(n, p);
          if a == Raising {
            return;
          }
        case n: Name :| n in newPc && NewEnabled(n) =>
          a := StepNew(n, p);
          if a == Raising || a == KeyError {
            return;
          }
        case n: Name :| n in oldPc && OldEnabled(n) =>
          a := StepOld(n, p);
          if a == Raising {
            return;
          }
        case (forall n: Name :: n in cleanPc ==> !CleanEnabled(n)) && (forall n: Name :: n in newPc ==> !NewEnabled(n))
             && (forall n: Name :: n in oldPc ==> !OldEnabled(n)) =>
          DoneAsAnswered();
          return Finished;
      }
      a := Yielded;
    }

    /** Close the generators of the tasks for n. */
    method CloseName(n: Name)
      requires Wired() && NameInv(n)
      modifies Mine(n)
      ensures NameInv(n) && ViewOf(n) == ClosedView(old(ViewOf(n)))
    {
      ghost var v := ViewOf(n);
      CloseKeeps(v, rollback, sound);
      CloseLate(n);
      CloseEarly(n);
    }

    /** The cleanup of backups, and the tasks of new resources. */
    method CloseEarly(n: Name)
      requires Wired() && Known(n) && Staged(ViewOf(n), rollback)
      modifies Mine(n)`state
      ensures ViewOf(n) == EarlyClosed(old(ViewOf(n)))
    {
      if (n in cleanPc && cleanPc[n].Cleaning?) || (n in newPc && newPc[n].DestroyingBackup?) {
        CloseResource(n, BackupOne, backups[n]);
      } else if n in newPc && newPc[n].Creating? {
        CloseResource(n, NewOne, created[n]);
      }
    }

    /** The tasks of old resources. */
    method CloseLate(n: Name)
      requires Wired() && NameInv(n)
      modifies Mine(n)
      ensures ViewOf(n) == LateClosed(old(ViewOf(n)))
      ensures Placed(n, InExisting(old(ViewOf(n))), InPrevious(old(ViewOf(n))))
    {
      if n in oldPc && oldPc[n].DestroyingSelf? {
        CloseResource(n, OldOne, olds[n]);
      } else if n in oldPc && oldPc[n].CleaningBackup? {
        CloseResource(n, InPrevious(ViewOf(n)), previous.resources[n]);
      }
    }

    method CloseResource(n: Name, ghost slot: Slot, r: Resource)
      requires Wired() && Known(n) && Occupant(n, slot) == Some(r)
      modifies r`state
      ensures ViewOf(n) == WithState(old(ViewOf(n)), slot, Closed(Some(old(r.state))).value)
    {
      if r.state == State(DELETE, IN_PROGRESS) || r.state == State(CREATE, IN_PROGRESS) {
        SetState(n, slot, r, State(r.state.action, FAILED));
      }
    }

    method StepClose(n: Name)
      requires Inv()
      modifies all
      ensures Inv()
      ensures Known(n) && ViewOf(n) == ClosedView(old(ViewOf(n)))
      ensures forall m :: m != n ==> Known(m) && ViewOf(m) == old(ViewOf(m))
    {
      assert NameInv(n) && AnswerInv(n);
      CloseName(n);
      OthersStay(n);
    }

    /** Close all that is still under way: the end of an update that raised, timed out or was abandoned. */
    method Close()
      requires Inv()
      modifies all
      ensures Inv() && newPc == old(newPc) && oldPc == old(oldPc)
      ensures forall n :: Known(n) && ViewOf(n) == ClosedView(old(ViewOf(n)))
    {
      var todo := cleanPc.Keys + newPc.Keys + oldPc.Keys;
      while todo != {}
        invariant Inv()
        invariant forall n :: Known(n) && ViewOf(n) == if n in todo then old(ViewOf(n)) else ClosedView(old(ViewOf(n)))
      {
        var n :| n in todo;
        StepClose(n);
        todo := todo - {n};
      }
    }

    /** Replace the resource called n, and close what is still under way. */
    method ReplaceAndClose(n: Name, p: Answers)
      requires Inv() && NewEnabled(n) && newPc[n].NewIdle? && n in oldPc && oldPc[n].OldIdle? && n in olds
      requires n in existing.resources && n !in previous.resources && p.update.NeedsReplacement?
      modifies this`newPc, this`answers, existing, previous, all
      ensures Owning(existing, previous) && existing.resources.Values + previous.resources.Values <= all
      ensures Lookup(existing.resources, n) == Lookup(created, n) != None
      ensures Lookup(previous.resources, n) == Some(olds[n]) && olds[n].state == State(UPDATE, COMPLETE)
    {
      var _ := StepReplace(n, p);
      Close();
      ReplacedIsBackup(n);
      CanStartAgain();
    }

    /** Run, and close what is still under way if that does not finish. */
    method RunAndClose(limit: nat, plugin: nat -> Answers) returns (finished: bool)
      requires Inv() && sound
      modifies this`cleanPc, this`newPc, this`oldPc, this`answers, existing, previous, all
      ensures Inv() && Owning(existing, previous) && Sound(existing, previous) && AllHeld(existing, previous, all)
      ensures existing.resources.Values + previous.resources.Values <= all
      ensures finished ==> existing.resources.Keys == created.Keys
      ensures finished ==> forall n :: n in previous.resources ==> !Live(previous.resources[n].state)
      ensures Enough(plugin, limit, old(Undone())) ==> finished
    {
      var a := Run(limit, plugin);
      finished := a == Finished;
      if finished {
        DoneIsClean();
      } else {
        Close();
      }
      CanStartAgain();
      LiveIsHeld();
    }
  }

  lemma {:induction false} SubsetSize(a: set<Name>, b: set<Name>)
    requires a <= b
    ensures |a| <= |b|
  {
    if x :| x in a {
      SubsetSize(a - {x}, b - {x});
    }
  }

  /** An update of the existing stack that is stopped after some segments, or by an exception, if it does not finish. */
  method RunUpdate(existing: Stack, previous: Stack, created: map<Name, Resource>, rollback: bool,
                   limit: nat, plugin: nat -> Answers)
      returns (finished: bool)
    requires Owning(existing, previous) && Sound(existing, previous) && Uncreated(existing, previous, created)
    modifies existing, previous, existing.resources.Values, previous.resources.Values, created.Values
    ensures Owning(existing, previous) && Sound(existing, previous)
    ensures existing.resources.Values + previous.resources.Values
            <= old(existing.resources.Values + previous.resources.Values) + created.Values
    ensures AllHeld(existing, previous, old(existing.resources.Values + previous.resources.Values) + created.Values)
    ensures finished ==> existing.resources.Keys == created.Keys
    ensures finished ==> forall n :: n in previous.resources ==> !Live(previous.resources[n].state)
    ensures AllPrompt(plugin, limit) && limit > old(Tasks(existing, previous, created)) ==> finished
  {
    var u := new StackUpdate(existing, previous, created, rollback);
    u.UndoneAtStart();
    finished := u.RunAndClose(limit, plugin);
  }

  /**
    An update, and if it does not finish a rollback: another update of the same
    two stacks, to the old template.
  */
  method UpdateThenRollBack(existing: Stack, previous: Stack, created: map<Name, Resource>,
                            restored: map<Name, Resource>, limit: nat, rollbackLimit: nat,
                            plugin: nat -> Answers, rollbackPlugin: nat -> Answers)
      returns (updated: bool, rolledBack: bool)
    requires Owning(existing, previous) && Sound(existing, previous)
    requires Uncreated(existing, previous, created) && Uncreated(existing, previous, restored)
    requires created.Values !! restored.Values
    modifies existing, previous, existing.resources.Values, previous.resources.Values, created.Values, restored.Values
    ensures AllHeld(existing, previous,
                    old(existing.resources.Values + previous.resources.Values) + created.Values + restored.Values)
    ensures updated ==> existing.resources.Keys == created.Keys
    ensures rolledBack ==> existing.resources.Keys == restored.Keys
    ensures updated || rolledBack ==> forall n :: n in previous.resources ==> !Live(previous.resources[n].state)
  {
    rolledBack := false;
    ghost var first := existing.resources.Values + previous.resources.Values + created.Values;
    updated := RunUpdate(existing, previous, created, false, limit, plugin);
    if !updated {
      rolledBack := RollBack(existing, previous, restored, rollbackLimit, rollbackPlugin, first);
    }
  }

  /** The rollback, after an update that concerned the resources in first. */
  method RollBack(existing: Stack, previous: Stack, restored: map<Name, Resource>,
                  limit: nat, plugin: nat -> Answers, ghost first: set<Resource>)
      returns (finished: bool)
    requires Owning(existing, previous) && Sound(existing, previous) && Uncreated(existing, previous, restored)
    requires AllHeld(existing, previous, first) && first !! restored.Values
    modifies existing, previous, existing.resources.Values, previous.resources.Values, restored.Values
    ensures AllHeld(existing, previous, first + restored.Values)
    ensures finished ==> existing.resources.Keys == restored.Keys
    ensures finished ==> forall n :: n in previous.resources ==> !Live(previous.resources[n].state)
    ensures AllPrompt(plugin, limit) && limit > old(Tasks(existing, previous, restored)) ==> finished
  {
    ghost var dropped := first - existing.resources.Values - previous.resources.Values;
    assert AllDead(dropped);
    finished := RunUpdate(existing, previous, restored, true, limit, plugin);
    assert AllDead(dropped);
  }

  /**
    Replacing the resource called n, in whatever state, in an update that is then
    abandoned makes it a valid backup.
  */
  method ReplaceAndAbandon(existing: Stack, previous: Stack, created: map<Name, Resource>, n: Name)
    requires Owning(existing, previous) && previous.resources == map[] && Uncreated(existing, previous, created)
    requires n in existing.resources && n in created
    modifies existing, previous, existing.resources.Values, created.Values
    ensures Owning(existing, previous) && n in existing.resources
    ensures Lookup(previous.resources, n) == Some(old(existing.resources[n]))
    ensures previous.resources[n].state == State(UPDATE, COMPLETE)
    ensures existing.resources.Values + previous.resources.Values <= old(existing.resources.Values) + created.Values
  {
    var u := new StackUpdate(existing, previous, created, false);
    var p: Answers := *;
    u.ReplaceAndClose(n, p.(update := NeedsReplacement(true)));
  }

  /** A rollback that has to replace the resource called n swaps in a valid backup, as it is. */
  method RollBackSwapsIn(existing: Stack, previous: Stack, restored: map<Name, Resource>, n: Name)
    requires Owning(existing, previous) && Uncreated(existing, previous, restored)
    requires n in existing.resources && n in restored && n in previous.resources
    requires Live(previous.resources[n].state) && previous.resources[n].state.status == COMPLETE
    modifies existing, previous, existing.resources.Values, previous.resources.Values, restored.Values
    ensures Lookup(existing.resources, n) == Some(old(previous.resources[n]))
    ensures existing.resources[n].state == old(previous.resources[n].state)
  {
    var u := new StackUpdate(existing, previous, restored, true);
    var p: Answers := *;
    var _ := u.StepReplace(n, p.(update := NeedsReplacement(false)));
    u.SwappedIsBackup(n);
  }

  /**
    A resource whose creation failed is replaced in an update, which is then
    abandoned. The rollback swaps it in for its replacement, as if it had been
    valid before.
  */
  method BrokenComesBack(existing: Stack, previous: Stack, created: map<Name, Resource>,
                        restored: map<Name, Resource>, n: Name)
    requires Owning(existing, previous) && previous.resources == map[]
    requires Uncreated(existing, previous, created) && Uncreated(existing, previous, restored)
    requires created.Values !! restored.Values
    requires n in existing.resources && n in created && n in restored
    requires existing.resources[n].state == State(CREATE, FAILED)
    modifies existing, previous, existing.resources.Values, created.Values, restored.Values
    ensures Lookup(existing.resources, n) == Some(old(existing.resources[n]))
    ensures existing.resources[n].state == State(UPDATE, COMPLETE)
  {
    ReplaceAndAbandon(existing, previous, created, n);
    RollBackSwapsIn(existing, previous, restored, n);
  }
}
