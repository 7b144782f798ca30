/**
 * The generator's output directory (`arg_dest`) and the file-system
 * primitives clone-generator.c applies to it. Their bodies are not modelled:
 * an environment `Io` decides each primitive's status from everything done
 * before and the operation itself, and the directory keeps the ordered log
 * of what was attempted.
 */
module Effects {
  import opened Errors

  datatype Op =
    /** `generator_open_unit_file`: create the unit file for writing. */
    | OpenUnit(unit: string)
    /** The `fprintf`s into the opened unit file, then `fflush_and_check`. */
    | FlushUnit(unit: string, content: seq<string>)
    /** `generator_add_symlink(dest, from, dep, unit)`: `<from>.<dep>/<unit>`. */
    | AddSymlink(from: string, dep: string, unit: string)
    /** `write_drop_in(dest, unit, priority, name, text)`: `<unit>.d/<priority>-<name>.conf`. */
    | WriteDropIn(unit: string, priority: nat, name: string, text: string)

  datatype Step = Step(op: Op, status: Status)

  /** The outcome of a primitive, given the steps already taken. */
  type Io = (seq<Step>, Op) -> Status

  /** The status of a run and the log of steps after it. */
  datatype Run = Run(status: Status, steps: seq<Step>)

  /** A failure of this operation is only warned about: the drop-in. */
  predicate Tolerated(op: Op) {
    op.WriteDropIn?
  }

  /**
   * Applies `ops` in order, stopping at the first failure of an operation
   * that is not tolerated and returning its status; 0 when all were applied.
   */
  function Execute(io: Io, done: seq<Step>, ops: seq<Op>): Run
    decreases |ops|
  {
    if ops == [] then Run(0, done)
    else
      var r := io(done, ops[0]);
      var next := done + [Step(ops[0], r)];
      if r < 0 && !Tolerated(ops[0]) then Run(r, next)
      else Execute(io, next, ops[1..])
  }

  /**
   * What `Execute` does, stated on the log: it appends steps for a prefix of
   * `ops` in order, each with the status the environment gave it; every step
   * but the last succeeded or was tolerated; a negative result is the
   * status of the last step, a failure that is not tolerated; and a zero
   * result means every operation ran with no such failure.
   */
  lemma {:induction false} ExecuteShape(io: Io, done: seq<Step>, ops: seq<Op>)
    ensures var o := Execute(io, done, ops);
      && done <= o.steps
      && |o.steps| <= |done| + |ops|
      && (forall k :: |done| <= k < |o.steps| ==>
            o.steps[k] == Step(ops[k - |done|], io(o.steps[..k], ops[k - |done|])))
      && (forall k :: |done| <= k < |o.steps| - 1 ==>
            o.steps[k].status == 0 || Tolerated(o.steps[k].op))
      && (o.status < 0 ==>
            |done| < |o.steps| && o.steps[|o.steps| - 1].status == o.status
            && !Tolerated(o.steps[|o.steps| - 1].op))
      && (o.status == 0 ==>
            |o.steps| == |done| + |ops|
            && (|ops| > 0 ==> o.steps[|o.steps| - 1].status == 0 || Tolerated(o.steps[|o.steps| - 1].op)))
    decreases |ops|
  {
    if ops != [] {
      var r := io(done, ops[0]);
      var next := done + [Step(ops[0], r)];
      assert next[..|done|] == done;
      if !(r < 0 && !Tolerated(ops[0])) {
        ExecuteShape(io, next, ops[1..]);
        var o := Execute(io, next, ops[1..]);
        forall k | |done| <= k < |o.steps|
          ensures o.steps[k] == Step(ops[k - |done|], io(o.steps[..k], ops[k - |done|]))
        {
          if k == |done| {
            assert o.steps[..k] == next[..k];
          }
        }
      }
    }
  }

  /** One step of `Execute` that does not stop the run. */
  lemma ExecuteNext(io: Io, done: seq<Step>, ops: seq<Op>)
    requires ops != []
    ensures var r := io(done, ops[0]);
      !(r < 0 && !Tolerated(ops[0])) ==>
        Execute(io, done, ops) == Execute(io, done + [Step(ops[0], r)], ops[1..])
    ensures var r := io(done, ops[0]);
      r < 0 && !Tolerated(ops[0]) ==> Execute(io, done, ops) == Run(r, done + [Step(ops[0], r)])
    ensures ops[1..] == [] ==> Execute(io, done, ops[1..]) == Run(0, done)
  {
  }

  /** The output directory: the log of primitives applied to it, in order. */
  class OutputDir {
    const io: Io
    var steps: seq<Step>

    constructor (io: Io)
      ensures this.io == io && steps == []
    {
      this.io := io;
      steps := [];
    }

    /** Applies one primitive: the environment decides its status, the log grows by one step. */
    method Apply(op: Op) returns (r: Status)
      modifies this
      ensures r == io(old(steps), op)
      ensures steps == old(steps) + [Step(op, r)]
    {
      r := io(steps, op);
      steps := steps + [Step(op, r)];
    }
  }
}
