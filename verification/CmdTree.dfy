/** `CmdTree` and the part of `Cmd` that pipes, edits and displays it. */
module CmdTree {
  import opened Types
  import Shell = PosixShell
  import Display = CmdDisplay
  import RenderTheorems

  datatype SingleCmd = SingleCmd(
    program: string, args: seq<string>, cwd: Option<string>,
    envClear: bool, envRemove: seq<string>, envs: seq<(string, string)>)

  datatype Tree = Single(cmd: SingleCmd) | Pipe(left: Tree, right: Tree)

  /** The stages, left to right. */
  function Leaves(t: Tree): (r: seq<SingleCmd>)
    ensures r != []
  {
    match t
    case Single(s) => [s]
    case Pipe(l, r) => Leaves(l) + Leaves(r)
  }

  /** The stages of the trees on a stack whose top is its last element. */
  function StackLeaves(stack: seq<Tree>): seq<SingleCmd> {
    if stack == [] then [] else Leaves(stack[|stack| - 1]) + StackLeaves(stack[..|stack| - 1])
  }

  function Size(t: Tree): nat {
    match t
    case Single(_) => 1
    case Pipe(l, r) => 1 + Size(l) + Size(r)
  }

  function StackSize(stack: seq<Tree>): nat {
    if stack == [] then 0 else Size(stack[|stack| - 1]) + StackSize(stack[..|stack| - 1])
  }

  lemma PushTwo(stack: seq<Tree>, l: Tree, r: Tree)
    ensures StackLeaves(stack + [r] + [l]) == Leaves(Pipe(l, r)) + StackLeaves(stack)
    ensures StackSize(stack + [r] + [l]) == Size(l) + Size(r) + StackSize(stack)
  {
    var one := stack + [r];
    assert one[..|stack|] == stack && (one + [l])[..|one|] == one;
    assert StackLeaves(one + [l]) == Leaves(l) + (Leaves(r) + StackLeaves(stack));
  }

  /** `flatten`, and `flatten_owned` on an owned tree: an explicit stack instead of recursion. */
  method Flatten(t: Tree) returns (out: seq<SingleCmd>)
    ensures out == Leaves(t)
  {
    out := [];
    var stack := [t];
    assert stack[..0] == [];
    while stack != []
      invariant out + StackLeaves(stack) == Leaves(t)
      decreases StackSize(stack)
    {
      var node := stack[|stack| - 1];
      ghost var before := out + StackLeaves(stack);
      stack := stack[..|stack| - 1];
      match node
      case Single(s) =>
        out := out + [s];
        assert out + StackLeaves(stack) == before;
      case Pipe(l, r) =>
        PushTwo(stack, l, r);
        stack := stack + [r] + [l];
    }
  }

  /** A builder applied through `rightmost_mut`. */
  function EditRightmost(t: Tree, edit: SingleCmd -> SingleCmd): Tree {
    match t
    case Single(s) => Single(edit(s))
    case Pipe(l, r) => Pipe(l, EditRightmost(r, edit))
  }

  function RightLeaf(t: Tree): SingleCmd {
    match t
    case Single(s) => s
    case Pipe(_, r) => RightLeaf(r)
  }

  /** An edit changes the last stage and no other. */
  lemma {:induction false} EditChangesLastStage(t: Tree, edit: SingleCmd -> SingleCmd)
    ensures var n := |Leaves(t)| - 1;
            && Leaves(EditRightmost(t, edit)) == Leaves(t)[..n] + [edit(Leaves(t)[n])]
            && RightLeaf(t) == Leaves(t)[n]
  {
    if t.Pipe? { EditChangesLastStage(t.right, edit); }
  }

  /** `settings` is everything that applies to the pipeline as a whole: stdin, the stdout and stderr
      modes, timeout, deadline, retry policy, hook and cancellation. */
  datatype Cmd<S> = Cmd(tree: Tree, settings: S, secret: bool)

  /** `pipe`: pipeline settings come from `self`, except that either side's secret is kept. */
  function PipeCmds<S>(self: Cmd<S>, next: Cmd<S>): Cmd<S> {
    self.(tree := Pipe(self.tree, next.tree), secret := self.secret || next.secret)
  }

  function Stages(cmds: seq<SingleCmd>): (r: seq<Shell.Stage>)
    ensures |r| == |cmds|
    ensures forall i :: 0 <= i < |r| ==> r[i].program == cmds[i].program && r[i].args == cmds[i].args
  {
    seq(|cmds|, i requires 0 <= i < |cmds| => Shell.Stage(cmds[i].program, cmds[i].args))
  }

  function TreeStages(t: Tree): seq<Shell.Stage> { Stages(Leaves(t)) }

  function Snapshot<S>(c: Cmd<S>): Display.CmdDisplay { Display.CmdDisplay(TreeStages(c.tree), c.secret) }

  /** How pipes are nested makes no difference to what runs, to how the whole is set up, or to what
      is displayed. */
  lemma PipeIsAssociative<S>(a: Cmd<S>, b: Cmd<S>, c: Cmd<S>)
    ensures var left, right := PipeCmds(PipeCmds(a, b), c), PipeCmds(a, PipeCmds(b, c));
            && Leaves(left.tree) == Leaves(right.tree) && Snapshot(left) == Snapshot(right)
            && left.(tree := right.tree) == right && left.settings == a.settings
  {
    assert (Leaves(a.tree) + Leaves(b.tree)) + Leaves(c.tree) == Leaves(a.tree) + (Leaves(b.tree) + Leaves(c.tree));
  }

  /** A piped command renders as a shell pipeline of its parts, each as secret as the whole. */
  lemma PipeRendersAsPipe<S>(a: Cmd<S>, b: Cmd<S>)
    ensures var secret := a.secret || b.secret;
            Display.Render(Snapshot(PipeCmds(a, b)))
            == Display.Render(Snapshot(a.(secret := secret))) + " | " + Display.Render(Snapshot(b.(secret := secret)))
  {
    var x, y := TreeStages(a.tree), TreeStages(b.tree);
    assert Stages(Leaves(a.tree) + Leaves(b.tree)) == x + y;
    RenderTheorems.RenderJoins(x, y, a.secret || b.secret);
  }

  /** One secret part is enough to hide the arguments of every part: the render of a pipe shows
      exactly the programs. */
  lemma SecretOfAnyPartHidesAll<S>(a: Cmd<S>, b: Cmd<S>, c: Cmd<S>, d: Cmd<S>)
    requires (a.secret || b.secret) && (c.secret || d.secret)
    ensures Display.Render(Snapshot(PipeCmds(a, b))) == Display.Render(Snapshot(PipeCmds(c, d))) <==>
            RenderTheorems.SamePrograms(TreeStages(Pipe(a.tree, b.tree)), TreeStages(Pipe(c.tree, d.tree)))
  {
    RenderTheorems.SecretShowsExactlyPrograms(Snapshot(PipeCmds(a, b)).stages, Snapshot(PipeCmds(c, d)).stages);
  }
}
