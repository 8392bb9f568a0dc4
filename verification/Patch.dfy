/** pkg/localtools/patch.go: a patch of many files, staged in memory, committed, and rolled back if that fails. */
module Patch {
  import opened Base
  import Order
  import PatchChunks

  type Path = string
  type Disk = map<Path, File>

  datatype File = File(content: string, mode: nat)

  datatype Operation =
    | Create(path: string, content: string)
    | Delete(path: string)
    | Update(path: string, movePath: string, chunks: seq<PatchChunks.Chunk>)

  datatype Kind = Created | Deleted | Updated
  datatype Change = Change(path: string, kind: Kind)

  datatype State = State(present: bool, content: string, mode: nat)

  // How request paths resolve inside the workspace, and which paths can be read as regular files (or are missing).
  datatype Env = Env(resolve: string -> Option<Path>, readable: Path -> bool)

  datatype Failure = Empty | Cancelled | Rejected | CommitFailed(rolledBack: bool)

  const DEFAULT_MODE: nat := 0x1A4  // 0644

  // A mode of 0 is written as the default.
  function WrittenMode(mode: nat): nat {
    if mode == 0 then DEFAULT_MODE else mode
  }

  function StateOf(disk: Disk, p: Path): State {
    if p in disk then State(true, disk[p].content, disk[p].mode) else State(false, "", DEFAULT_MODE)
  }

  function At(disk: Disk, p: Path): Option<File> {
    if p in disk then Some(disk[p]) else None
  }

  // The file a committed state leaves at its path.
  function Target(s: State): Option<File> {
    if s.present then Some(File(s.content, WrittenMode(s.mode))) else None
  }

  // ---- Staging ----

  datatype Staging = Staging(states: map<Path, State>, changed: set<Path>, changes: seq<Change>)

  function Look(disk: Disk, states: map<Path, State>, p: Path): State {
    if p in states then states[p] else StateOf(disk, p)
  }

  function Load(env: Env, disk: Disk, states: map<Path, State>, request: string): Option<(Path, map<Path, State>)> {
    match env.resolve(request)
    case None => None
    case Some(p) =>
      if p in states then Some((p, states))
      else if env.readable(p) then Some((p, states[p := StateOf(disk, p)])) else None
  }

  function Put(st: Staging, states: map<Path, State>, p: Path, s: State, change: Change): Staging {
    Staging(states[p := s], st.changed + {p}, st.changes + [change])
  }

  function StageOp(env: Env, disk: Disk, st: Staging, op: Operation): Option<Staging> {
    match Load(env, disk, st.states, op.path)
    case None => None
    case Some((p, states)) =>
      var s := Look(disk, states, p);
      match op
      case Create(path, content) =>
        if s.present then None
        else Some(Put(st, states, p, s.(present := true, content := content), Change(path, Created)))
      case Delete(path) =>
        if !s.present then None
        else Some(Put(st, states, p, s.(present := false, content := ""), Change(path, Deleted)))
      case Update(path, movePath, chunks) =>
        if !s.present then None
        else
          match PatchChunks.Updated(s.content, chunks)
          case None => None
          case Some(updated) =>
            if movePath == "" then Some(Put(st, states, p, s.(content := updated), Change(path, Updated)))
            else
              match Load(env, disk, states, movePath)
              case None => None
              case Some((d, states')) =>
                var t := Look(disk, states', d);
                if t.present then None
                else
                  Some(Staging(states'[d := State(true, updated, s.mode)][p := s.(present := false, content := "")],
                               st.changed + {p, d},
                               st.changes + [Change(path, Deleted), Change(movePath, Created)]))
  }

  function StageAll(env: Env, disk: Disk, st: Staging, ops: seq<Operation>): Option<Staging>
    decreases ops
  {
    if ops == [] then Some(st)
    else
      match StageOp(env, disk, st, ops[0])
      case None => None
      case Some(next) => StageAll(env, disk, next, ops[1..])
  }

  const NOTHING := Staging(map[], {}, [])

  // What an operation is reported as: a move as a deletion and a creation.
  function Reported(op: Operation): seq<Change> {
    match op
    case Create(path, _) => [Change(path, Created)]
    case Delete(path) => [Change(path, Deleted)]
    case Update(path, movePath, _) =>
      if movePath == "" then [Change(path, Updated)] else [Change(path, Deleted), Change(movePath, Created)]
  }

  function AllReported(ops: seq<Operation>): seq<Change> {
    if ops == [] then [] else Reported(ops[0]) + AllReported(ops[1..])
  }

  lemma OpIsReported(env: Env, disk: Disk, st: Staging, op: Operation)
    ensures var next := StageOp(env, disk, st, op); next.Some? ==> next.value.changes == st.changes + Reported(op)
  {
    hide PatchChunks.Updated;
  }

  // A staged patch reports all of its operations, in order.
  lemma {:induction false} ChangesAreReported(env: Env, disk: Disk, st: Staging, ops: seq<Operation>)
    ensures var all := StageAll(env, disk, st, ops); all.Some? ==> all.value.changes == st.changes + AllReported(ops)
    decreases ops
  {
    if ops == [] {
      assert st.changes + [] == st.changes;
    } else {
      OpIsReported(env, disk, st, ops[0]);
      var next := StageOp(env, disk, st, ops[0]);
      if next.Some? {
        ChangesAreReported(env, disk, next.value, ops[1..]);
        assert st.changes + Reported(ops[0]) + AllReported(ops[1..]) == st.changes + (Reported(ops[0]) + AllReported(ops[1..]));
      }
      hide StageOp, Reported;
    }
  }

  // What is staged on top of a disk: loaded states are the disk's until an operation changes them.
  ghost predicate Staged(disk: Disk, st: Staging) {
    && st.changed <= st.states.Keys
    && forall p :: p in st.states && p !in st.changed ==> st.states[p] == StateOf(disk, p)
  }

  lemma StageOpStaged(env: Env, disk: Disk, st: Staging, op: Operation)
    requires Staged(disk, st)
    ensures StageOp(env, disk, st, op).Some? ==> Staged(disk, StageOp(env, disk, st, op).value)
  {
    hide PatchChunks.Updated;
  }

  lemma {:induction false} StageAllStaged(env: Env, disk: Disk, st: Staging, ops: seq<Operation>)
    requires Staged(disk, st)
    ensures StageAll(env, disk, st, ops).Some? ==> Staged(disk, StageAll(env, disk, st, ops).value)
    decreases ops
  {
    if ops != [] {
      StageOpStaged(env, disk, st, ops[0]);
      match StageOp(env, disk, st, ops[0])
      case None =>
      case Some(next) => StageAllStaged(env, disk, next, ops[1..]);
    }
  }

  // The disk with every changed path in its staged state.
  ghost predicate Committed(before: Disk, st: Staging, after: Disk)
    requires st.changed <= st.states.Keys
  {
    forall p :: At(after, p) == if p in st.changed then Target(st.states[p]) else At(before, p)
  }

  // The disk put back; a file of mode 0 among the changed ones comes back with the default mode.
  ghost predicate Restored(before: Disk, changed: set<Path>, after: Disk) {
    forall p :: At(after, p) == if p in changed then Target(StateOf(before, p)) else At(before, p)
  }

  lemma SameDisk(a: Disk, b: Disk)
    requires forall p :: At(a, p) == At(b, p)
    ensures a == b
  {
    forall p
      ensures p in a <==> p in b
      ensures p in a ==> a[p] == b[p]
    {
      assert At(a, p) == At(b, p);
    }
  }

  // A rolled-back patch leaves the disk exactly as it was, unless a touched file had mode 0.
  lemma RollbackIsExact(before: Disk, changed: set<Path>, after: Disk)
    requires Restored(before, changed, after)
    ensures after == before <==> forall p :: p in changed && p in before ==> before[p].mode != 0
  {
    if forall p :: p in changed && p in before ==> before[p].mode != 0 {
      SameDisk(after, before);
    } else {
      var p :| p in changed && p in before && before[p].mode == 0;
      assert At(after, p) == Target(StateOf(before, p));
    }
  }

  // ---- One operation at a time ----

  // What a patch of this one operation does to the disk.
  function ApplyOne(env: Env, disk: Disk, op: Operation): Option<Disk> {
    match env.resolve(op.path)
    case None => None
    case Some(p) =>
      if !env.readable(p) then None
      else
        match op
        case Create(_, content) => if p in disk then None else Some(disk[p := File(content, DEFAULT_MODE)])
        case Delete(_) => if p in disk then Some(disk - {p}) else None
        case Update(_, movePath, chunks) =>
          if p !in disk then None
          else
            match PatchChunks.Updated(disk[p].content, chunks)
            case None => None
            case Some(updated) =>
              var file := File(updated, WrittenMode(disk[p].mode));
              if movePath == "" then Some(disk[p := file])
              else
                match env.resolve(movePath)
                case None => None
                case Some(d) => if !env.readable(d) || d in disk then None else Some((disk - {p})[d := file])
  }

  // The request names a path that can be used, and p is it.
  ghost predicate Names(env: Env, request: string, p: Path) {
    env.resolve(request) == Some(p) && env.readable(p)
  }

  // What one operation asks of the disk, path by path, and what it leaves.
  ghost predicate Does(env: Env, disk: Disk, op: Operation, after: Disk) {
    exists p :: Names(env, op.path, p) && DoesAt(env, disk, op, p, after)
  }

  ghost predicate DoesAt(env: Env, disk: Disk, op: Operation, p: Path, after: Disk) {
    match op
    case Create(_, content) => At(disk, p) == None && OnlyAt(disk, after, p, Some(File(content, 0x1A4)))
    case Delete(_) => At(disk, p) != None && OnlyAt(disk, after, p, None)
    case Update(_, movePath, chunks) =>
      && p in disk && PatchChunks.Updated(disk[p].content, chunks).Some?
      && var now := File(PatchChunks.Updated(disk[p].content, chunks).value, if disk[p].mode == 0 then 0x1A4 else disk[p].mode);
         if movePath == "" then OnlyAt(disk, after, p, Some(now))
         else exists d :: Names(env, movePath, d) && MovesTo(disk, after, p, d, now)
  }

  ghost predicate OnlyAt(disk: Disk, after: Disk, p: Path, now: Option<File>) {
    forall q :: At(after, q) == if q == p then now else At(disk, q)
  }

  // The destination was free, and the source is gone.
  ghost predicate MovesTo(disk: Disk, after: Disk, p: Path, d: Path, now: File) {
    At(disk, d) == None && forall q :: At(after, q) == if q == d then Some(now) else if q == p then None else At(disk, q)
  }

  // One operation succeeds exactly if something is what it asks for, and that is what it leaves: a new file with the
  // default mode, no file, or a file with its lines rewritten and its mode kept, here or at its new path.
  lemma OperationDoes(env: Env, disk: Disk, op: Operation)
    ensures match ApplyOne(env, disk, op)
            case None => forall after :: !Does(env, disk, op, after)
            case Some(after) => Does(env, disk, op, after) && forall other :: Does(env, disk, op, other) ==> other == after
  {
    hide PatchChunks.Updated;
    var r := ApplyOne(env, disk, op);
    if r.Some? {
      var p := env.resolve(op.path).value;
      if op.Update? && op.movePath != "" {
        var d := env.resolve(op.movePath).value;
        assert Names(env, op.movePath, d);
      }
      assert Names(env, op.path, p) && DoesAt(env, disk, op, p, r.value);
      forall other | Does(env, disk, op, other)
        ensures other == r.value
      {
        SameEffect(env, disk, op, r.value, other);
      }
    }
  }

  lemma SameEffect(env: Env, disk: Disk, op: Operation, a: Disk, b: Disk)
    requires Does(env, disk, op, a) && Does(env, disk, op, b)
    ensures a == b
  {
    hide PatchChunks.Updated, At;
    forall p
      ensures At(a, p) == At(b, p)
    {
    }
    SameDisk(a, b);
  }

  function ApplyEach(env: Env, disk: Disk, ops: seq<Operation>): Option<Disk>
    decreases ops
  {
    if ops == [] then Some(disk)
    else
      match ApplyOne(env, disk, ops[0])
      case None => None
      case Some(next) => ApplyEach(env, next, ops[1..])
  }

  // Paths whose file, present or removed by this patch, carries a mode that is neither absent nor the default, and
  // those of them that were created anew on such a remnant.
  datatype Modes = Modes(odd: set<Path>, stale: set<Path>)

  function Moved(s: set<Path>, from: Path, onto: Path): set<Path> {
    if from in s then s + {onto} else s - {onto}
  }

  function ModesAfter(env: Env, m: Modes, op: Operation): Modes {
    match env.resolve(op.path)
    case None => m
    case Some(p) =>
      match op
      case Create(_, _) => m.(stale := if p in m.odd then m.stale + {p} else m.stale - {p})
      case Delete(_) => m.(stale := m.stale - {p})
      case Update(_, movePath, _) =>
        if movePath == "" then m
        else
          match env.resolve(movePath)
          case None => m
          case Some(d) => Modes(Moved(m.odd, p, d), Moved(m.stale, p, d) - {p})
  }

  function ModesOf(env: Env, m: Modes, ops: seq<Operation>): Modes
    decreases ops
  {
    if ops == [] then m else ModesOf(env, ModesAfter(env, m, ops[0]), ops[1..])
  }

  predicate Odd(mode: nat) {
    mode != 0 && mode != DEFAULT_MODE
  }

  function OddPaths(disk: Disk): set<Path> {
    set p | p in disk && Odd(disk[p].mode)
  }

  // Files that this patch would leave with a mode other than the one applying its operations singly gives.
  function StaleModes(env: Env, disk: Disk, ops: seq<Operation>): set<Path> {
    ModesOf(env, Modes(OddPaths(disk), {}), ops).stale
  }

  // How the staged patch and the disk the single operations have reached compare at one path.
  ghost predicate AgreeAt(disk: Disk, st: Staging, reached: Disk, m: Modes, p: Path) {
    var s := Look(disk, st.states, p);
    && (s.present <==> p in reached)
    && (p in m.odd <==> Odd(s.mode))
    && (p in m.stale ==> s.present && p in m.odd && reached[p].mode == DEFAULT_MODE)
    && (s.present ==> reached[p].content == s.content
                      && (p in st.changed && p !in m.stale ==> reached[p].mode == WrittenMode(s.mode))
                      && (p in m.stale ==> p in st.changed)
                      && (p !in st.changed ==> reached[p].mode == s.mode))
  }

  ghost predicate Agree(env: Env, disk: Disk, st: Staging, reached: Disk, m: Modes) {
    && Staged(disk, st)
    && (forall p :: p in st.states ==> env.readable(p))
    && forall p :: AgreeAt(disk, st, reached, m, p)
  }

  // Loading fails exactly for paths that one operation alone could not load either, and shows what is there.
  lemma LoadAgrees(env: Env, disk: Disk, st: Staging, reached: Disk, m: Modes, request: string)
    requires Agree(env, disk, st, reached, m)
    ensures match Load(env, disk, st.states, request)
            case None => env.resolve(request).None? || !env.readable(env.resolve(request).value)
            case Some((p, states)) =>
              && env.resolve(request) == Some(p) && env.readable(p) && p in states
              && Agree(env, disk, st.(states := states), reached, m)
              && AgreeAt(disk, st.(states := states), reached, m, p)
  {
    match Load(env, disk, st.states, request)
    case None =>
    case Some((p, states)) =>
      forall q
        ensures AgreeAt(disk, st.(states := states), reached, m, q)
      {
        assert AgreeAt(disk, st, reached, m, q);
      }
  }

  // Changing one path on both sides.
  lemma PutAgrees(env: Env, disk: Disk, st: Staging, reached: Disk, m: Modes, p: Path, s: State,
                  st': Staging, reached': Disk, m': Modes)
    requires Agree(env, disk, st, reached, m) && env.readable(p)
    requires st'.states == st.states[p := s] && st'.changed == st.changed + {p}
    requires forall q :: q != p ==> At(reached, q) == At(reached', q) && (q in m.odd <==> q in m'.odd)
                                    && (q in m.stale <==> q in m'.stale)
    requires AgreeAt(disk, st', reached', m', p)
    ensures Agree(env, disk, st', reached', m')
  {
    forall q
      ensures AgreeAt(disk, st', reached', m', q)
    {
      assert AgreeAt(disk, st, reached, m, q);
      if q != p {
        assert At(reached, q) == At(reached', q);
      }
    }
  }

  // Whether both ways of applying an operation fail, or succeed and still agree.
  ghost predicate SameOutcome(env: Env, disk: Disk, st: Option<Staging>, reached: Option<Disk>, m: Modes) {
    if st.Some? then reached.Some? && Agree(env, disk, st.value, reached.value, m) else reached.None?
  }

  lemma SimpleOpAgrees(env: Env, disk: Disk, st: Staging, reached: Disk, m: Modes, op: Operation)
    requires Agree(env, disk, st, reached, m) && (op.Update? ==> op.movePath == "")
    ensures SameOutcome(env, disk, StageOp(env, disk, st, op), ApplyOne(env, reached, op), ModesAfter(env, m, op))
  {
    LoadAgrees(env, disk, st, reached, m, op.path);
    match Load(env, disk, st.states, op.path)
    case None =>
    case Some((p, states)) =>
      var loaded := st.(states := states);
      hide Load, PatchChunks.Updated, Agree, Staged;
      match StageOp(env, disk, st, op)
      case None =>
      case Some(next) =>
        PutAgrees(env, disk, loaded, reached, m, p, next.states[p], next,
                  ApplyOne(env, reached, op).value, ModesAfter(env, m, op));
  }

  // A move writes the destination and then clears the source.
  lemma MovedAgrees(env: Env, disk: Disk, st: Staging, reached: Disk, m: Modes, p: Path, d: Path, updated: string,
                    next: Staging)
    requires Agree(env, disk, st, reached, m) && env.readable(p) && env.readable(d) && p != d && p in reached && d !in reached
    requires var s := Look(disk, st.states, p);
             next.states == st.states[d := State(true, updated, s.mode)][p := s.(present := false, content := "")]
    requires next.changed == st.changed + {p, d}
    ensures Agree(env, disk, next, (reached - {p})[d := File(updated, WrittenMode(reached[p].mode))],
                  Modes(Moved(m.odd, p, d), Moved(m.stale, p, d) - {p}))
  {
    var s := Look(disk, st.states, p);
    var written := State(true, updated, s.mode);
    var st1 := Staging(st.states[d := written], st.changed + {d}, []);
    var reached1 := reached[d := File(updated, WrittenMode(reached[p].mode))];
    var m1 := Modes(Moved(m.odd, p, d), Moved(m.stale, p, d));
    assert AgreeAt(disk, st, reached, m, p);
    assert AgreeAt(disk, st1, reached1, m1, d);
    PutAgrees(env, disk, st, reached, m, d, written, st1, reached1, m1);
    assert AgreeAt(disk, st1, reached1, m1, p);
    var m2 := m1.(stale := m1.stale - {p});
    assert next.changed == st1.changed + {p};
    PutAgrees(env, disk, st1, reached1, m1, p, s.(present := false, content := ""), next, reached1 - {p}, m2);
    assert reached1 - {p} == (reached - {p})[d := File(updated, WrittenMode(reached[p].mode))];
  }

  lemma MoveAgrees(env: Env, disk: Disk, st: Staging, reached: Disk, m: Modes, op: Operation)
    requires Agree(env, disk, st, reached, m) && op.Update? && op.movePath != ""
    ensures SameOutcome(env, disk, StageOp(env, disk, st, op), ApplyOne(env, reached, op), ModesAfter(env, m, op))
  {
    LoadAgrees(env, disk, st, reached, m, op.path);
    match Load(env, disk, st.states, op.path)
    case None =>
    case Some((p, states)) =>
      var loaded := st.(states := states);
      LoadAgrees(env, disk, loaded, reached, m, op.movePath);
      hide Load, PatchChunks.Updated, Agree, Staged;
      match StageOp(env, disk, st, op)
      case None =>
      case Some(next) =>
        var (d, states') := Load(env, disk, states, op.movePath).value;
        MovedAgrees(env, disk, loaded.(states := states'), reached, m, p, d, next.states[d].content, next);
  }

  lemma {:induction false} AllAgree(env: Env, disk: Disk, st: Staging, reached: Disk, m: Modes, ops: seq<Operation>)
    requires Agree(env, disk, st, reached, m)
    ensures SameOutcome(env, disk, StageAll(env, disk, st, ops), ApplyEach(env, reached, ops), ModesOf(env, m, ops))
    decreases ops
  {
    if ops != [] {
      if ops[0].Update? && ops[0].movePath != "" {
        MoveAgrees(env, disk, st, reached, m, ops[0]);
      } else {
        SimpleOpAgrees(env, disk, st, reached, m, ops[0]);
      }
      hide Agree, StageOp, ApplyOne, ModesAfter;
      match StageOp(env, disk, st, ops[0])
      case None =>
      case Some(next) =>
        AllAgree(env, disk, next, ApplyOne(env, reached, ops[0]).value, ModesAfter(env, m, ops[0]), ops[1..]);
    }
  }

  // A patch is accepted exactly when its operations, applied one at a time, would all be, and leaves the same files
  // with the same contents. Modes may differ: the two agree at a path unless it is stale.
  lemma PatchIsItsOperationsInTurn(env: Env, disk: Disk, ops: seq<Operation>)
    ensures var st, each := StageAll(env, disk, NOTHING, ops), ApplyEach(env, disk, ops);
            && (st.Some? <==> each.Some?)
            && (st.Some? ==>
                  && Staged(disk, st.value)
                  && forall after :: Committed(disk, st.value, after) ==>
                       && after.Keys == each.value.Keys
                       && (forall p :: p in after ==> after[p].content == each.value[p].content)
                       && (after == each.value <==> StaleModes(env, disk, ops) == {}))
  {
    var m := Modes(OddPaths(disk), {});
    assert forall p :: AgreeAt(disk, NOTHING, disk, m, p);
    AllAgree(env, disk, NOTHING, disk, m, ops);
    match StageAll(env, disk, NOTHING, ops)
    case None =>
    case Some(st) =>
      var each := ApplyEach(env, disk, ops).value;
      forall after | Committed(disk, st, after)
        ensures after.Keys == each.Keys && (forall p :: p in after ==> after[p].content == each[p].content)
        ensures after == each <==> StaleModes(env, disk, ops) == {}
      {
        CommittedAgrees(env, disk, st, each, ModesOf(env, m, ops), after);
      }
  }

  lemma CommittedAgrees(env: Env, disk: Disk, st: Staging, reached: Disk, m: Modes, after: Disk)
    requires Agree(env, disk, st, reached, m) && Committed(disk, st, after)
    ensures after.Keys == reached.Keys && (forall p :: p in after ==> after[p].content == reached[p].content)
    ensures after == reached <==> m.stale == {}
  {
    forall p
      ensures p in after <==> p in reached
      ensures p in after ==> after[p].content == reached[p].content && (p in m.stale <==> after[p].mode != reached[p].mode)
      ensures p in m.stale ==> p in after
    {
      assert AgreeAt(disk, st, reached, m, p);
      assert At(after, p) == if p in st.changed then Target(st.states[p]) else At(disk, p);
    }
    if m.stale == {} {
      assert forall p :: At(after, p) == At(reached, p);
      SameDisk(after, reached);
    } else {
      var p :| p in m.stale;
    }
  }

  // Deleting a file and creating it again in one patch keeps its mode; in two patches it does not.
  lemma RecreatedFileKeepsItsMode(env: Env)
    requires env.resolve("run.sh") == Some("/run.sh") && env.readable("/run.sh")
    ensures var disk := map["/run.sh" := File("old", 0x1ED)];
            var ops := [Delete("run.sh"), Create("run.sh", "new")];
            && StageAll(env, disk, NOTHING, ops).Some? && StageAll(env, disk, NOTHING, ops).value.changed == {"/run.sh"}
            && Target(StageAll(env, disk, NOTHING, ops).value.states["/run.sh"]) == Some(File("new", 0x1ED))
            && ApplyEach(env, disk, ops) == Some(map["/run.sh" := File("new", DEFAULT_MODE)])
            && StaleModes(env, disk, ops) == {"/run.sh"}
  {
    var disk := map["/run.sh" := File("old", 0x1ED)];
    var ops := [Delete("run.sh"), Create("run.sh", "new")];
    var st := StageOp(env, disk, NOTHING, ops[0]).value;
    assert st.states == map["/run.sh" := State(false, "", 0x1ED)];
    assert ops[1..] == [ops[1]] && ops[1..][1..] == [];
    assert StageAll(env, disk, NOTHING, ops) == StageAll(env, disk, st, ops[1..]) == StageOp(env, disk, st, ops[1]);
    assert disk - {"/run.sh"} == map[];
    assert ApplyEach(env, disk, ops) == ApplyEach(env, map[], ops[1..]) == ApplyOne(env, map[], ops[1]);
    var m := Modes(OddPaths(disk), {});
    assert m.odd == {"/run.sh"};
    assert ModesOf(env, m, ops) == ModesOf(env, m, ops[1..]) == ModesAfter(env, m, ops[1]);
  }

  // ---- The workspace ----

  class Workspace {
    const env: Env
    var disk: Disk

    constructor (env: Env, disk: Disk)
      ensures this.env == env && this.disk == disk
    {
      this.env, this.disk := env, disk;
    }

    // Every new version is written before an old path is removed. `fails` says which action on the disk goes wrong;
    // a failed action leaves its path as it was.
    method CommitPatchStates(paths: seq<Path>, states: map<Path, State>, fails: nat -> bool, clock: nat)
      returns (ok: bool, now: nat)
      requires forall p :: p in paths ==> p in states
      modifies this`disk
      ensures now >= clock
      ensures ok ==> forall p :: At(disk, p) == if p in paths then Target(states[p]) else At(old(disk), p)
      ensures forall p :: At(disk, p) == At(old(disk), p) || (p in paths && At(disk, p) == Target(states[p]))
      ensures (exists p :: p in old(disk) && p !in disk) ==>
                forall p :: p in paths && states[p].present ==> At(disk, p) == Target(states[p])
      ensures !ok ==> exists i: nat :: clock <= i < now && fails(i)
      ensures ok ==> forall i: nat :: clock <= i < now ==> !fails(i)
    {
      now := clock;
      for i := 0 to |paths|
        invariant now >= clock && forall k: nat :: clock <= k < now ==> !fails(k)
        invariant forall p :: At(disk, p) == if p in paths[..i] && states[p].present then Target(states[p]) else At(old(disk), p)
        invariant old(disk).Keys <= disk.Keys
      {
        var state := states[paths[i]];
        assert paths[..i + 1] == paths[..i] + [paths[i]];
        if !state.present {
          continue;
        }
        now := now + 1;
        if fails(now - 1) {
          return false, now;
        }
        disk := disk[paths[i] := File(state.content, WrittenMode(state.mode))];
      }
      assert paths[..|paths|] == paths;
      for i := 0 to |paths|
        invariant now >= clock && forall k: nat :: clock <= k < now ==> !fails(k)
        invariant forall p :: At(disk, p) == if p in paths && (states[p].present || p in paths[..i])
                                             then Target(states[p]) else At(old(disk), p)
      {
        assert paths[..i + 1] == paths[..i] + [paths[i]];
        if states[paths[i]].present {
          continue;
        }
        now := now + 1;
        if fails(now - 1) {
          return false, now;
        }
        disk := disk - {paths[i]};
      }
      return true, now;
    }

    method SortedPaths(changed: set<Path>) returns (paths: seq<Path>)
      ensures forall p :: p in paths <==> p in changed
      ensures Order.Increasing(paths)
    {
      hide Order.Sort, Order.Less;
      var unsorted: seq<Path>, rest := [], changed;
      while rest != {}
        invariant rest <= changed && Order.DistinctBy(unsorted, Order.Itself)
        invariant forall p :: p in unsorted <==> p in changed - rest
        decreases |rest|
      {
        var p :| p in rest;
        Order.DistinctSnoc(unsorted, p, Order.Itself);
        unsorted, rest := unsorted + [p], rest - {p};
      }
      paths := Order.Sort(unsorted, Order.Less);
      Order.SortIncreasing(unsorted);
    }

    method Stage(op: Operation, st: Staging, original: map<Path, State>)
      returns (r: Option<Staging>, original': map<Path, State>)
      requires original.Keys == st.states.Keys && forall p :: p in original ==> original[p] == StateOf(disk, p)
      ensures r == StageOp(env, disk, st, op)
      ensures r.Some? ==> original'.Keys == r.value.states.Keys && forall p :: p in original' ==> original'[p] == StateOf(disk, p)
    {
      var states := st.states;
      original' := original;
      var loaded := Load(env, disk, states, op.path);
      if loaded.None? {
        return None, original;
      }
      var path := loaded.value.0;
      states := loaded.value.1;
      if path !in original' {
        original' := original'[path := states[path]];
      }
      var state := states[path];
      match op
      case Create(_, content) =>
        if state.present {
          return None, original';
        }
        state := state.(present := true, content := content);
        r := Some(Staging(states[path := state], st.changed + {path}, st.changes + [Change(op.path, Created)]));
      case Delete(_) =>
        if !state.present {
          return None, original';
        }
        state := state.(present := false, content := "");
        r := Some(Staging(states[path := state], st.changed + {path}, st.changes + [Change(op.path, Deleted)]));
      case Update(_, movePath, chunks) =>
        if !state.present {
          return None, original';
        }
        var updated := PatchChunks.ApplyPatchChunks(state.content, chunks);
        if updated.None? {
          return None, original';
        }
        state := state.(content := updated.value);
        if movePath == "" {
          r := Some(Staging(states[path := state], st.changed + {path}, st.changes + [Change(op.path, Updated)]));
          return;
        }
        loaded := Load(env, disk, states, movePath);
        if loaded.None? {
          return None, original';
        }
        var destination := loaded.value.0;
        states := loaded.value.1;
        if destination !in original' {
          original' := original'[destination := states[destination]];
        }
        var destState := states[destination];
        if destState.present {
          return None, original';
        }
        states := states[destination := State(true, state.content, state.mode)];
        states := states[path := state.(present := false, content := "")];
        r := Some(Staging(states, st.changed + {path, destination},
                          st.changes + [Change(op.path, Deleted), Change(movePath, Created)]));
    }

    // A patch is committed whole, or refused without touching the disk, or rolled back; only a rollback that fails
    // itself can leave a mixture, and then every path still is in its old or its new state.
    method ApplyPatch(ops: seq<Operation>, cancelled: nat -> bool, fails: nat -> bool)
      returns (r: Result<seq<Change>, Failure>)
      modifies this`disk
      ensures match r
        case Ok(changes) =>
          && StageAll(env, old(disk), NOTHING, ops).Some?
          && var st := StageAll(env, old(disk), NOTHING, ops).value;
             st.changed <= st.states.Keys && changes == st.changes && Committed(old(disk), st, disk)
        case Err(CommitFailed(rolledBack)) =>
          && StageAll(env, old(disk), NOTHING, ops).Some? && (exists i: nat :: fails(i))
          && var st := StageAll(env, old(disk), NOTHING, ops).value;
             && st.changed <= st.states.Keys
             && (rolledBack ==> Restored(old(disk), st.changed, disk))
             && forall p :: At(disk, p) == At(old(disk), p)
                            || (p in st.changed && At(disk, p) == Target(st.states[p]))
                            || (p in st.changed && At(disk, p) == Target(StateOf(old(disk), p)))
        case Err(_) => disk == old(disk)
      ensures r == Err(Empty) <==> ops == []
      ensures r == Err(Rejected) ==> StageAll(env, old(disk), NOTHING, ops).None?
      ensures r == Err(Cancelled) ==> exists i: nat :: i < |ops| && cancelled(i)
    {
      if |ops| == 0 {
        return Err(Empty);
      }
      var st := NOTHING;
      var original: map<Path, State> := map[];
      ghost var whole := StageAll(env, disk, NOTHING, ops);
      assert ops[0..] == ops;
      for i := 0 to |ops|
        invariant disk == old(disk)
        invariant whole == StageAll(env, disk, st, ops[i..])
        invariant original.Keys == st.states.Keys && forall p :: p in original ==> original[p] == StateOf(disk, p)
        invariant Staged(disk, st)
      {
        assert ops[i..][0] == ops[i] && ops[i..][1..] == ops[i + 1..];
        if cancelled(i) {
          return Err(Cancelled);
        }
        StageOpStaged(env, disk, st, ops[i]);
        var next, original' := Stage(ops[i], st, original);
        if next.None? {
          return Err(Rejected);
        }
        st, original := next.value, original';
      }
      var paths := SortedPaths(st.changed);
      var ok, now := CommitPatchStates(paths, st.states, fails, 0);
      if !ok {
        label Failed:
        var restored, _ := CommitPatchStates(paths, original, fails, now);
        return Err(CommitFailed(restored));
      }
      return Ok(st.changes);
    }
  }
}
