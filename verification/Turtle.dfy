/** The script interpreter of TurtleMobility: an XML tree walked with one cursor
    and a flat stack of loop counters, against a recursive unrolling. */
module Turtle {
  import opened Options

  /** What an element is, once its attributes are evaluated.  A repeat without
      an `n` attribute runs forever; every other statement only advances time, or is
      faulty: a required attribute is missing, the border policy unknown, the speed not
      positive or the distance negative. */
  datatype Tag = Repeat(n: Option<int>) | Move(t: real) | Faulty

  datatype Element = Element(tag: Tag, children: seq<Element>)

  const INFINITE: int := -1

  function Last<T>(s: seq<T>): T
    requires s != []
  {
    s[|s| - 1]
  }

  function Init<T>(s: seq<T>): seq<T>
    requires s != []
  {
    s[..|s| - 1]
  }

  // ---------------------------------------------------------------- the tree

  /** An element of the tree with its parent and sibling links: the chain of sibling lists
      from the children of the script down, and the position in each. */
  datatype Link = Link(siblings: seq<Element>, i: nat)
  type Cursor = seq<Link>

  ghost predicate Good(p: Cursor) {
    p != [] && forall j :: 0 <= j < |p| ==> p[j].i < |p[j].siblings|
  }

  /** Each sibling list but the first is the body of the element above. */
  ghost predicate Linked(root: Element, p: Cursor)
    requires Good(p)
  {
    && p[0].siblings == root.children
    && forall j :: 1 <= j < |p| ==> p[j].siblings == p[j - 1].siblings[p[j - 1].i].children
  }

  function Node(p: Cursor): (e: Element)
    requires Good(p)
  {
    Last(p).siblings[Last(p).i]
  }

  function FirstChild(p: Cursor): Cursor
    requires Good(p) && Node(p).children != []
  {
    p + [Link(Node(p).children, 0)]
  }

  /** Another child of the same parent. */
  function Sibling(p: Cursor, i: nat): Cursor
    requires p != []
  {
    Init(p) + [Last(p).(i := i)]
  }

  // ------------------------------------------------- the recursive unrolling

  function Times<T>(n: nat, s: seq<T>): seq<T> {
    if n == 0 then [] else s + Times(n - 1, s)
  }

  /** The first m elements, or all of them. */
  function Take<T>(s: seq<T>, m: nat): seq<T> {
    if m < |s| then s[..m] else s
  }

  /** Iterations of a repeat; an infinite one is cut after k iterations and a
      negative count gives none. */
  function Iterations(e: Element, k: nat): nat {
    match e.tag
    case Move(_) => 0
    case Faulty => 0
    case Repeat(None) => k
    case Repeat(Some(n)) => if n < 0 then 0 else n
  }

  function Body(e: Element, k: nat): seq<Element>
    decreases e, 1
  {
    if e.tag.Repeat? then Times(Iterations(e, k), Unroll(e.children, k)) else []
  }

  function Unroll(es: seq<Element>, k: nat): seq<Element>
    decreases es, 0
  {
    if es == [] then [] else [es[0]] + (Body(es[0], k) + Unroll(es[1..], k))
  }

  /** Statements the interpreter cannot get over: error() or ASSERT. */
  predicate Bad(e: Element) {
    match e.tag
    case Move(t) => t < 0.0 || e.children != []
    case Faulty => true
    case Repeat(None) => e.children == []
    case Repeat(Some(n)) => n < 0 || e.children == []
  }

  predicate Clean(es: seq<Element>) {
    forall e :: e in es ==> !Bad(e)
  }

  // ------------------------------------------------------------ the machine

  datatype Pos = At(cursor: Cursor) | End

  datatype Config = Running(pos: Pos, stack: seq<int>) | Failed

  /** gotoNextStatement once the current statement has nothing (more) to enter. */
  function Leave(p: Cursor, stack: seq<int>): (c: Config)
    requires Good(p)
    decreases |p|
  {
    if Last(p).i + 1 < |Last(p).siblings| then
      Running(At(Sibling(p, Last(p).i + 1)), stack)
    else if |p| == 1 then
      if stack == [] then Running(End, []) else Failed
    else if stack == [] then
      Failed
    else
      var top := if Last(stack) != INFINITE then Last(stack) - 1 else INFINITE;
      if top != 0 then Running(At(Sibling(p, 0)), Init(stack) + [top])
      else if !Node(Init(p)).tag.Repeat? then Failed
      else Leave(Init(p), Init(stack))
  }

  function GotoNext(p: Cursor, stack: seq<int>): (c: Config)
    requires Good(p)
  {
    var e := Node(p);
    if e.children == [] then Leave(p, stack)
    else if !e.tag.Repeat? || stack == [] then Failed
    else if Last(stack) != 0 then Running(At(FirstChild(p)), stack)
    else Leave(p, Init(stack))
  }

  /** executeStatement: only its effect on the loop stack. */
  function Execute(e: Element, stack: seq<int>): (r: Option<seq<int>>) {
    match e.tag
    case Repeat(None) => Some(stack + [INFINITE])
    case Repeat(Some(n)) => if n < 0 then None else Some(stack + [n])
    case Move(t) => if t < 0.0 then None else Some(stack)
    case Faulty => None
  }

  ghost predicate Located(root: Element, c: Config) {
    c.Running? && c.pos.At? ==> Good(c.pos.cursor) && Linked(root, c.pos.cursor)
  }

  /** One iteration of the loop of resumeScript. */
  function Step(c: Config): (c': Config)
    requires c.Running? && c.pos.At? && Good(c.pos.cursor)
  {
    match Execute(Node(c.pos.cursor), c.stack)
    case None => Failed
    case Some(stack) => GotoNext(c.pos.cursor, stack)
  }

  lemma {:induction false} LeaveLocated(root: Element, p: Cursor, stack: seq<int>)
    requires Good(p) && Linked(root, p)
    ensures Located(root, Leave(p, stack))
    decreases |p|
  {
    if |p| > 1 && stack != [] {
      LeaveLocated(root, Init(p), Init(stack));
    }
  }

  lemma StepLocated(root: Element, c: Config)
    requires Located(root, c) && c.Running? && c.pos.At?
    ensures Located(root, Step(c))
  {
    var p := c.pos.cursor;
    match Execute(Node(p), c.stack)
    case None =>
    case Some(stack) =>
      LeaveLocated(root, p, stack);
      if stack != [] { LeaveLocated(root, p, Init(stack)); }
  }

  function Start(root: Element): (c: Config)
  {
    Running(if root.children == [] then End else At([Link(root.children, 0)]), [])
  }

  datatype Run = Run(trace: seq<Element>, last: Config)

  /** The first m statements executed from configuration c (fewer if it stops). */
  ghost function Exec(root: Element, c: Config, m: nat): Run
    requires Located(root, c)
    decreases m
  {
    if m == 0 || c.Failed? || c.pos.End? then Run([], c)
    else
      StepLocated(root, c);
      var r := Exec(root, Step(c), m - 1);
      Run([Node(c.pos.cursor)] + r.trace, r.last)
  }

  // ------------------------------------------------------------- simulation

  /** What the unrolling still has to do once the statement at p is finished,
      when loop j of the enclosing repeats has ks[j] iterations to go. */
  ghost function Tail(p: Cursor, ks: seq<nat>, k: nat): seq<Element>
    requires Fits(p, ks)
    decreases |p|
  {
    Unroll(Last(p).siblings[Last(p).i + 1..], k) + Around(p, ks, k)
  }

  /** The same once the body around p has been done for this time. */
  ghost function Around(p: Cursor, ks: seq<nat>, k: nat): seq<Element>
    requires Fits(p, ks)
    decreases |p|, 0
  {
    if |p| == 1 then []
    else Times(Last(ks) - 1, Unroll(Last(p).siblings, k)) + Tail(Init(p), Init(ks), k)
  }

  ghost predicate Fits(p: Cursor, ks: seq<nat>) {
    && Good(p) && |ks| == |p| - 1
    && (forall j :: 0 <= j < |ks| ==> ks[j] >= 1)
    && (forall j :: 0 <= j < |p| - 1 ==> p[j].siblings[p[j].i].tag.Repeat?)
  }

  ghost predicate Shape(root: Element, pos: Pos, ks: seq<nat>) {
    if pos.End? then ks == [] else Fits(pos.cursor, ks) && Linked(root, pos.cursor)
  }

  ghost function Rest(pos: Pos, ks: seq<nat>, k: nat): seq<Element>
    requires pos.At? ==> Fits(pos.cursor, ks)
  {
    if pos.End? then [] else [Node(pos.cursor)] + (Body(Node(pos.cursor), k) + Tail(pos.cursor, ks, k))
  }

  /** Counters agree with the iterations to go; an infinite loop has more than m. */
  ghost predicate Agree(stack: seq<int>, ks: seq<nat>, m: nat) {
    |stack| == |ks| &&
    forall j :: 0 <= j < |ks| ==> if stack[j] == INFINITE then ks[j] > m else stack[j] == ks[j]
  }

  /** c has exactly `rest` to execute, for at least m more statements. */
  ghost predicate Sim(root: Element, c: Config, ks: seq<nat>, k: nat, m: nat, rest: seq<Element>) {
    c.Running? && Shape(root, c.pos, ks) && Agree(c.stack, ks, m) && rest == Rest(c.pos, ks, k)
  }

  lemma Assoc<T>(a: seq<T>, b: seq<T>, c: seq<T>)
    ensures a + (b + c) == (a + b) + c
  {
  }

  /** Standing at a child of a body is having the rest of the body to do. */
  lemma RestOfBody(p: Cursor, ks: seq<nat>, k: nat)
    requires Fits(p, ks)
    ensures Rest(At(p), ks, k) == Unroll(Last(p).siblings[Last(p).i..], k) + Around(p, ks, k)
  {
    var es := Last(p).siblings[Last(p).i..];
    assert es[1..] == Last(p).siblings[Last(p).i + 1..];
    Assoc(Body(es[0], k), Unroll(es[1..], k), Around(p, ks, k));
    Assoc([es[0]], Body(es[0], k) + Unroll(es[1..], k), Around(p, ks, k));
  }

  lemma NextSibling(p: Cursor, ks: seq<nat>, k: nat)
    requires Fits(p, ks) && Last(p).i + 1 < |Last(p).siblings|
    ensures var q := Sibling(p, Last(p).i + 1); Fits(q, ks) && Rest(At(q), ks, k) == Tail(p, ks, k)
  {
    var q := Sibling(p, Last(p).i + 1);
    assert Init(q) == Init(p);
    RestOfBody(q, ks, k);
  }

  lemma OneOfMany<T>(n: nat, s: seq<T>, t: seq<T>)
    requires n > 0
    ensures Times(n, s) + t == s + (Times(n - 1, s) + t)
  {
    Assoc(s, Times(n - 1, s), t);
  }

  /** Standing at the first child of a body with n iterations to go, this one included. */
  lemma StartOfBody(q: Cursor, ks: seq<nat>, k: nat)
    requires Fits(q, ks) && |q| > 1 && Last(q).i == 0
    ensures Rest(At(q), ks, k) == Times(Last(ks), Unroll(Last(q).siblings, k)) + Tail(Init(q), Init(ks), k)
  {
    var body := Last(q).siblings;
    assert body[0..] == body;
    RestOfBody(q, ks, k);
    OneOfMany(Last(ks), Unroll(body, k), Tail(Init(q), Init(ks), k));
  }

  /** Going back to the beginning of the body uses up one iteration. */
  lemma NextIteration(p: Cursor, ks: seq<nat>, k: nat)
    requires Fits(p, ks) && |p| > 1 && Last(ks) >= 2
    ensures var q, ks' := Sibling(p, 0), Init(ks) + [Last(ks) - 1];
            Fits(q, ks') && Rest(At(q), ks', k) == Around(p, ks, k)
  {
    var q, ks' := Sibling(p, 0), Init(ks) + [Last(ks) - 1];
    assert Init(q) == Init(p) && Init(ks') == Init(ks) && Last(ks') == Last(ks) - 1;
    StartOfBody(q, ks', k);
  }

  /** Entering the body of a repeat with n > 0 iterations. */
  lemma EnterBody(p: Cursor, ks: seq<nat>, k: nat, n: nat)
    requires Fits(p, ks) && n > 0 && Node(p).tag.Repeat? && Node(p).children != []
    ensures Fits(FirstChild(p), ks + [n])
    ensures Rest(At(FirstChild(p)), ks + [n], k) == Times(n, Unroll(Node(p).children, k)) + Tail(p, ks, k)
  {
    var q, ks' := FirstChild(p), ks + [n];
    assert Init(q) == p && Init(ks') == ks;
    StartOfBody(q, ks', k);
  }

  /** The end of a body whose loop is over. */
  lemma ExitLoop(p: Cursor, ks: seq<nat>, k: nat)
    requires Fits(p, ks) && |p| > 1 && Last(ks) == 1
    ensures Around(p, ks, k) == Tail(Init(p), Init(ks), k)
  {
    assert Times(0, Unroll(Last(p).siblings, k)) == [];
  }

  lemma EndOfBody(p: Cursor, ks: seq<nat>, k: nat)
    requires Fits(p, ks) && Last(p).i + 1 == |Last(p).siblings|
    ensures Tail(p, ks, k) == Around(p, ks, k)
  {
    assert Last(p).siblings[Last(p).i + 1..] == [];
  }

  lemma LeaveToSibling(root: Element, p: Cursor, stack: seq<int>, ks: seq<nat>, k: nat, m: nat)
    requires Fits(p, ks) && Linked(root, p) && Agree(stack, ks, m + 1) && Last(p).i + 1 < |Last(p).siblings|
    ensures Sim(root, Leave(p, stack), ks, k, m, Tail(p, ks, k))
  {
    NextSibling(p, ks, k);
    LeaveLocated(root, p, stack);
  }

  lemma LeaveToStart(root: Element, p: Cursor, stack: seq<int>, ks: seq<nat>, k: nat, m: nat)
    requires Fits(p, ks) && Linked(root, p) && Agree(stack, ks, m + 1) && Last(p).i + 1 == |Last(p).siblings|
    requires |p| > 1 && Last(ks) >= 2
    ensures Sim(root, Leave(p, stack), Init(ks) + [Last(ks) - 1], k, m, Tail(p, ks, k))
  {
    EndOfBody(p, ks, k);
    NextIteration(p, ks, k);
    LeaveLocated(root, p, stack);
    var ks' := Init(ks) + [Last(ks) - 1];
    var top := if Last(stack) != INFINITE then Last(stack) - 1 else INFINITE;
    assert Leave(p, stack) == Running(At(Sibling(p, 0)), Init(stack) + [top]);
  }

  lemma LeaveToParent(root: Element, p: Cursor, stack: seq<int>, ks: seq<nat>, k: nat, m: nat)
    requires Fits(p, ks) && Linked(root, p) && Agree(stack, ks, m + 1) && Last(p).i + 1 == |Last(p).siblings|
    requires |p| > 1 && Last(ks) == 1
    ensures Fits(Init(p), Init(ks)) && Linked(root, Init(p)) && Agree(Init(stack), Init(ks), m + 1)
    ensures Leave(p, stack) == Leave(Init(p), Init(stack)) && Tail(p, ks, k) == Tail(Init(p), Init(ks), k)
  {
    EndOfBody(p, ks, k);
    ExitLoop(p, ks, k);
  }

  lemma {:induction false} LeaveSimulates(root: Element, p: Cursor, stack: seq<int>, ks: seq<nat>, k: nat, m: nat)
    returns (ks': seq<nat>)
    requires Fits(p, ks) && Linked(root, p) && Agree(stack, ks, m + 1)
    ensures Sim(root, Leave(p, stack), ks', k, m, Tail(p, ks, k))
    decreases |p|
  {
    if Last(p).i + 1 < |Last(p).siblings| {
      LeaveToSibling(root, p, stack, ks, k, m);
      ks' := ks;
    } else if |p| == 1 {
      EndOfBody(p, ks, k);
      ks' := [];
    } else if Last(ks) >= 2 {
      LeaveToStart(root, p, stack, ks, k, m);
      ks' := Init(ks) + [Last(ks) - 1];
    } else {
      LeaveToParent(root, p, stack, ks, k, m);
      ks' := LeaveSimulates(root, Init(p), Init(stack), Init(ks), k, m);
    }
  }

  lemma StepEnters(c: Config, ks: seq<nat>, k: nat, m: nat)
    requires c.Running? && c.pos.At? && Good(c.pos.cursor) && Agree(c.stack, ks, m + 1) && k > m
    requires !Bad(Node(c.pos.cursor)) && Iterations(Node(c.pos.cursor), k) > 0
    ensures Node(c.pos.cursor).tag.Repeat? && Node(c.pos.cursor).children != []
    ensures Step(c).Running? && Step(c).pos == At(FirstChild(c.pos.cursor))
    ensures Agree(Step(c).stack, ks + [Iterations(Node(c.pos.cursor), k)], m)
  {
  }

  lemma StepLeaves(c: Config, k: nat, m: nat)
    requires c.Running? && c.pos.At? && Good(c.pos.cursor) && k > m
    requires !Bad(Node(c.pos.cursor)) && Iterations(Node(c.pos.cursor), k) == 0
    ensures Body(Node(c.pos.cursor), k) == []
    ensures Step(c) == Leave(c.pos.cursor, c.stack)
  {
    assert Init(c.stack + [0]) == c.stack;
    assert Times(0, Unroll(Node(c.pos.cursor).children, k)) == [];
  }

  /** One step of the machine executes the head of what is left. */
  lemma StepSimulates(root: Element, c: Config, ks: seq<nat>, k: nat, m: nat, rest: seq<Element>)
    returns (ks': seq<nat>)
    requires Sim(root, c, ks, k, m + 1, rest) && c.pos.At? && k > m
    requires !Bad(Node(c.pos.cursor))
    ensures rest != [] && rest[0] == Node(c.pos.cursor)
    ensures Sim(root, Step(c), ks', k, m, rest[1..])
  {
    var p := c.pos.cursor;
    var n := Iterations(Node(p), k);
    assert rest[1..] == Body(Node(p), k) + Tail(p, ks, k);
    if n > 0 {
      ks' := ks + [n];
      StepEnters(c, ks, k, m);
      EnterBody(p, ks, k, n);
      StepLocated(root, c);
    } else {
      StepLeaves(c, k, m);
      ks' := LeaveSimulates(root, p, c.stack, ks, k, m);
    }
  }

  /** One loop counter for each enclosing repeat. */
  predicate Nested(c: Config) {
    c.Running? ==> |c.stack| == if c.pos.At? && c.pos.cursor != [] then |c.pos.cursor| - 1 else 0
  }

  lemma RestHead(root: Element, c: Config, ks: seq<nat>, k: nat, m: nat, rest: seq<Element>)
    requires Sim(root, c, ks, k, m, rest)
    ensures Located(root, c) && Nested(c) && (rest == [] <==> c.pos.End?)
    ensures rest != [] ==> rest[0] == Node(c.pos.cursor)
    ensures rest == [] ==> c == Running(End, [])
  {
  }

  lemma CleanTake(rest: seq<Element>, m: nat)
    requires rest != [] && m > 0 && Clean(Take(rest, m))
    ensures !Bad(rest[0]) && Clean(Take(rest[1..], m - 1))
    ensures Take(rest, m) == [rest[0]] + Take(rest[1..], m - 1)
  {
    assert Take(rest, m)[0] == rest[0];
    assert Take(rest, m) == [rest[0]] + Take(rest[1..], m - 1);
  }

  /** The run executed the first m of `rest`, and ended if that is all. */
  ghost predicate Followed(r: Run, rest: seq<Element>, m: nat) {
    && r.trace == Take(rest, m) && r.last.Running? && Nested(r.last)
    && (|rest| <= m <==> r.last == Running(End, []))
  }

  lemma FollowedStep(r: Run, rest: seq<Element>, m: nat)
    requires rest != [] && m > 0 && Followed(r, rest[1..], m - 1)
    ensures Followed(Run([rest[0]] + r.trace, r.last), rest, m)
  {
    assert Take(rest, m) == [rest[0]] + Take(rest[1..], m - 1);
  }

  lemma ExecUnfold(root: Element, c: Config, m: nat)
    requires Located(root, c) && c.Running? && c.pos.At? && m > 0
    ensures Located(root, Step(c))
    ensures var r := Exec(root, Step(c), m - 1); Exec(root, c, m) == Run([Node(c.pos.cursor)] + r.trace, r.last)
  {
    StepLocated(root, c);
  }

  /** From a simulated configuration, m steps execute the first m statements of
      what is left, and the machine ends exactly when nothing is left. */
  lemma {:induction false} ExecSimulates(root: Element, c: Config, ks: seq<nat>, k: nat, m: nat, rest: seq<Element>)
    requires Sim(root, c, ks, k, m, rest) && k >= m
    requires Clean(Take(rest, m))
    ensures Located(root, c) && Followed(Exec(root, c, m), rest, m)
    decreases m
  {
    RestHead(root, c, ks, k, m, rest);
    if m > 0 && rest != [] {
      CleanTake(rest, m);
      var ks' := StepSimulates(root, c, ks, k, m - 1, rest);
      ExecSimulates(root, Step(c), ks', k, m - 1, rest[1..]);
      ExecUnfold(root, c, m);
      FollowedStep(Exec(root, Step(c), m - 1), rest, m);
    }
  }

  lemma StartSimulated(root: Element, k: nat, m: nat)
    ensures Sim(root, Start(root), [], k, m, Unroll(root.children, k))
  {
    if root.children != [] {
      assert root.children[0..] == root.children;
      RestOfBody([Link(root.children, 0)], [], k);
    }
  }

  /** Main result, any script, infinite repeats included: as long as no statement
      is bad, the machine executes the unrolling, statement by statement, with one
      counter for each enclosing repeat. */
  lemma RunFollowsUnrolling(root: Element, m: nat, k: nat)
    requires k >= m
    requires Clean(Take(Unroll(root.children, k), m))
    ensures Located(root, Start(root))
    ensures var u := Unroll(root.children, k); var r := Exec(root, Start(root), m);
            && r.trace == Take(u, m)
            && r.last.Running? && Nested(r.last)
            && (|u| <= m <==> r.last == Running(End, []))
  {
    StartSimulated(root, k, m);
    ExecSimulates(root, Start(root), [], k, m, Unroll(root.children, k));
  }

  // -------------------------------------------------------- when it goes wrong

  /** More counters than enclosing repeats. */
  ghost predicate Overfull(c: Config) {
    c.Failed? || (c.pos.At? && |c.stack| >= |c.pos.cursor|)
  }

  lemma {:induction false} LeaveOverfull(p: Cursor, stack: seq<int>)
    requires Good(p) && |stack| >= |p|
    ensures Overfull(Leave(p, stack))
    decreases |p|
  {
    if |p| > 1 {
      LeaveOverfull(Init(p), Init(stack));
    }
  }

  lemma StepOverfull(c: Config)
    requires Overfull(c) && c.Running? && Good(c.pos.cursor)
    ensures Overfull(Step(c))
  {
    var p := c.pos.cursor;
    match Execute(Node(p), c.stack)
    case None =>
    case Some(stack) =>
      LeaveOverfull(p, stack);
      if |stack| > |p| { LeaveOverfull(p, Init(stack)); }
  }

  /** No run gets rid of a surplus counter, so none reaches the end with one. */
  lemma {:induction false} OverfullNeverEnds(root: Element, c: Config, m: nat)
    requires Overfull(c) && Located(root, c)
    ensures Unended(Exec(root, c, m))
    decreases m
  {
    if m > 0 && c.Running? {
      StepLocated(root, c);
      StepOverfull(c);
      OverfullNeverEnds(root, Step(c), m - 1);
    }
  }

  ghost predicate Unended(r: Run) {
    r.last.Failed? || r.last.pos.At?
  }

  lemma UnendedStep(root: Element, c: Config, n: nat)
    requires Located(root, c) && c.Running? && c.pos.At? && n > 0 && Located(root, Step(c))
    requires Unended(Exec(root, Step(c), n - 1))
    ensures Unended(Exec(root, c, n))
  {
    ExecUnfold(root, c, n);
  }

  lemma BadNow(root: Element, c: Config, n: nat)
    requires Located(root, c) && c.Running? && c.pos.At? && |c.stack| == |c.pos.cursor| - 1 && Bad(Node(c.pos.cursor))
    ensures Unended(Exec(root, c, n))
  {
    if n > 0 {
      ExecUnfold(root, c, n);
      BadStep(c);
      OverfullNeverEnds(root, Step(c), n - 1);
    }
  }

  lemma BadStep(c: Config)
    requires c.Running? && c.pos.At? && Good(c.pos.cursor) && |c.stack| == |c.pos.cursor| - 1
    requires Bad(Node(c.pos.cursor))
    ensures Overfull(Step(c))
  {
    var p := c.pos.cursor;
    var e := Node(p);
    if e.tag.Repeat? && Execute(e, c.stack).Some? {
      LeaveOverfull(p, Execute(e, c.stack).value);
    }
  }

  lemma DirtyAt(rest: seq<Element>, m: nat) returns (j: nat)
    requires !Clean(Take(rest, m))
    ensures j < m && j < |rest| && Bad(rest[j])
  {
    var e :| e in Take(rest, m) && Bad(e);
    j :| 0 <= j < |Take(rest, m)| && Take(rest, m)[j] == e;
  }

  /** A bad statement j ahead means that the script never ends normally. */
  lemma {:induction false} BadNeverEnds(root: Element, c: Config, ks: seq<nat>, k: nat, m: nat,
                                        rest: seq<Element>, j: nat, n: nat)
    requires Sim(root, c, ks, k, m, rest) && k >= m > j && j < |rest| && Bad(rest[j])
    ensures Located(root, c) && Unended(Exec(root, c, n))
    decreases n
  {
    RestHead(root, c, ks, k, m, rest);
    if Bad(rest[0]) {
      BadNow(root, c, n);
    } else if n > 0 {
      var ks' := StepSimulates(root, c, ks, k, m - 1, rest);
      BadNeverEnds(root, Step(c), ks', k, m - 1, rest[1..], j - 1, n - 1);
      UnendedStep(root, c, n);
    }
  }

  /** No infinite repeat among the statements executed. */
  predicate Finite(u: seq<Element>) {
    forall e :: e in u ==> e.tag != Repeat(None)
  }

  lemma InTimes<T>(n: nat, s: seq<T>, x: T)
    requires n > 0 && x in s
    ensures x in Times(n, s) && |Times(n, s)| >= |s|
  {
  }

  lemma {:induction false} FromTimes<T>(n: nat, s: seq<T>, x: T)
    requires x in Times(n, s)
    ensures n > 0 && x in s
  {
    if x !in s { FromTimes(n - 1, s, x); }
  }

  lemma {:induction false} TimesLong<T>(n: nat, s: seq<T>)
    requires s != []
    ensures |Times(n, s)| >= n
  {
    if n > 0 { TimesLong(n - 1, s); }
  }

  /** Where no infinite repeat is reached, it does not matter where they are cut. */
  lemma {:induction false} FiniteUnrolling(es: seq<Element>, k: nat)
    requires Finite(Unroll(es, 0))
    ensures Unroll(es, k) == Unroll(es, 0)
    decreases es
  {
    if es != [] {
      var e := es[0];
      assert forall x :: x in Unroll(es, 0) <==> x == e || x in Body(e, 0) || x in Unroll(es[1..], 0);
      FiniteUnrolling(es[1..], k);
      if e.tag.Repeat? && Iterations(e, 0) > 0 {
        forall x | x in Unroll(e.children, 0) ensures x.tag != Repeat(None) {
          InTimes(Iterations(e, 0), Unroll(e.children, 0), x);
        }
        FiniteUnrolling(e.children, k);
      }
    }
  }

  /** What is executed is executed wherever infinite repeats are cut. */
  lemma {:induction false} ReachedAnyway(es: seq<Element>, k: nat, x: Element)
    requires x in Unroll(es, 0)
    ensures x in Unroll(es, k)
    decreases es
  {
    var e := es[0];
    if x == e {
    } else if x in Body(e, 0) {
      FromTimes(Iterations(e, 0), Unroll(e.children, 0), x);
      ReachedAnyway(e.children, k, x);
      InTimes(Iterations(e, k), Unroll(e.children, k), x);
    } else {
      ReachedAnyway(es[1..], k, x);
    }
  }

  /** An infinite repeat with a body makes the unrolling as long as it is cut late. */
  lemma {:induction false} InfiniteIsLong(es: seq<Element>, k: nat, x: Element)
    requires x in Unroll(es, k) && x.tag == Repeat(None) && x.children != []
    ensures |Unroll(es, k)| >= k
    decreases es
  {
    var e := es[0];
    if x == e {
      TimesLong(k, Unroll(x.children, k));
    } else if x in Body(e, k) {
      FromTimes(Iterations(e, k), Unroll(e.children, k), x);
      InfiniteIsLong(e.children, k, x);
      InTimes(Iterations(e, k), Unroll(e.children, k), x);
    } else {
      InfiniteIsLong(es[1..], k, x);
    }
  }

  ghost predicate EndsNormally(root: Element, m: nat)
  {
    Exec(root, Start(root), m).last == Running(End, [])
  }

  /** An infinite repeat that is reached: the run goes on for ever, or fails. */
  lemma InfiniteNeverEnds(root: Element, x: Element, m: nat)
    requires x in Unroll(root.children, 0) && x.tag == Repeat(None)
    ensures !EndsNormally(root, m)
  {
    var k := m + 1;
    var u := Unroll(root.children, k);
    ReachedAnyway(root.children, k, x);
    if Clean(Take(u, m)) {
      RunFollowsUnrolling(root, m, k);
      if x.children != [] { InfiniteIsLong(root.children, k, x); } else { assert Bad(x); }
    } else {
      var j := DirtyAt(u, m);
      StartSimulated(root, k, m);
      BadNeverEnds(root, Start(root), [], k, m, u, j, m);
    }
  }

  lemma BadScriptNeverEnds(root: Element, m: nat)
    requires var u := Unroll(root.children, 0); Finite(u) && !Clean(u)
    ensures !EndsNormally(root, m)
  {
    var u := Unroll(root.children, 0);
    FiniteUnrolling(root.children, |u|);
    var j := DirtyAt(u, |u|);
    StartSimulated(root, |u|, |u|);
    BadNeverEnds(root, Start(root), [], |u|, |u|, u, j, m);
  }

  /** Main result for every script: the run ends, with an empty loop stack and without
      ASSERT or error(), if and only if the statements executed, with infinite repeats cut
      at once, hold neither a bad statement nor an infinite repeat; the trace is then the
      whole unrolling. */
  lemma EndsIffClean(root: Element)
    ensures var u := Unroll(root.children, 0); (exists m :: EndsNormally(root, m)) <==> Clean(u) && Finite(u)
    ensures var u := Unroll(root.children, 0);
            Clean(u) && Finite(u) ==> EndsNormally(root, |u|) && Exec(root, Start(root), |u|).trace == u
  {
    var u := Unroll(root.children, 0);
    if !Finite(u) {
      var x :| x in u && x.tag == Repeat(None);
      forall m ensures !EndsNormally(root, m) { InfiniteNeverEnds(root, x, m); }
    } else if !Clean(u) {
      forall m ensures !EndsNormally(root, m) { BadScriptNeverEnds(root, m); }
    } else {
      FiniteUnrolling(root.children, |u|);
      RunFollowsUnrolling(root, |u|, |u|);
      assert EndsNormally(root, |u|);
    }
  }

  /** An empty repeat is enough, wherever it is executed. */
  lemma EmptyRepeatNeverEnds(root: Element, n: nat)
    requires Element(Repeat(Some(n)), []) in Unroll(root.children, 0)
    ensures forall m :: !EndsNormally(root, m)
  {
    EndsIffClean(root);
    assert Bad(Element(Repeat(Some(n)), []));
  }

  // ------------------------------------------------------------ the module

  function Duration(e: Element): real {
    if e.tag.Move? then e.tag.t else 0.0
  }

  predicate Instant(es: seq<Element>) {
    forall e :: e in es ==> Duration(e) == 0.0
  }

  function Elapsed(es: seq<Element>): real {
    if es == [] then 0.0 else Duration(es[0]) + Elapsed(es[1..])
  }

  lemma {:induction false} ElapsedExtend(es: seq<Element>, e: Element)
    ensures Elapsed(es + [e]) == Elapsed(es) + Duration(e)
  {
    if es == [] {
      assert es + [e] == [e];
    } else {
      assert (es + [e])[1..] == es[1..] + [e];
      ElapsedExtend(es[1..], e);
    }
  }

  lemma InstantExtend(es: seq<Element>, e: Element)
    ensures Init(es + [e]) == es
    ensures Instant(es + [e]) <==> Instant(es) && Duration(e) == 0.0
  {
    assert forall x :: x in es + [e] <==> x in es || x == e;
  }

  /** The run fails, reaches the end of the script, or a statement that takes time. */
  ghost predicate Halts(r: Run) {
    r.last.Failed? || r.last.pos.End? || !Instant(r.trace)
  }

  lemma {:induction false} ExecExtend(root: Element, c: Config, n: nat)
    requires Located(root, c)
    requires var last := Exec(root, c, n).last; last.Running? && last.pos.At?
    ensures var r := Exec(root, c, n);
            && Located(root, r.last)
            && Exec(root, c, n + 1) == Run(r.trace + [Node(r.last.pos.cursor)], Step(r.last))
    decreases n
  {
    StepLocated(root, c);
    if n > 0 {
      ExecExtend(root, Step(c), n - 1);
    }
  }

  /** A run that halts later goes on to halt, unless the statement done now fails or has
      already taken time. */
  lemma HaltsStep(root: Element, c: Config, m: nat)
    requires Located(root, c) && c.Running? && c.pos.At? && Halts(Exec(root, c, m))
    ensures m > 0 && Located(root, Step(c))
    ensures Step(c).Running? ==> Duration(Node(c.pos.cursor)) >= 0.0
    ensures Step(c).Running? && Duration(Node(c.pos.cursor)) == 0.0 ==> Halts(Exec(root, Step(c), m - 1))
  {
    StepLocated(root, c);
  }

  /** n statements have been executed since c0, the last of which alone may have taken
      time; if it did not, the run still halts within m. */
  ghost predicate Underway(root: Element, c0: Config, n: nat, trace: seq<Element>, c: Config, m: nat)
    requires Located(root, c0)
  {
    && n <= m && Located(root, c) && Exec(root, c0, n) == Run(trace, c)
    && (trace != [] ==> Instant(Init(trace))) && Elapsed(trace) >= 0.0
    && (Elapsed(trace) == 0.0 ==> Instant(trace) && Halts(Exec(root, c, m - n)))
  }

  lemma UnderwayStep(root: Element, c0: Config, n: nat, trace: seq<Element>, c: Config, m: nat)
    requires Located(root, c0) && Underway(root, c0, n, trace, c, m)
    requires Elapsed(trace) == 0.0 && c.Running? && c.pos.At?
    ensures n < m
    ensures Step(c).Running? ==>
              && Underway(root, c0, n + 1, trace + [Node(c.pos.cursor)], Step(c), m)
              && Elapsed(trace + [Node(c.pos.cursor)]) == Duration(Node(c.pos.cursor))
  {
    var e := Node(c.pos.cursor);
    ExecExtend(root, c0, n);
    HaltsStep(root, c, m - n);
    ElapsedExtend(trace, e);
    InstantExtend(trace, e);
  }

  class TurtleMobility {
    const turtleScript: Element
    var nextStatement: Option<Cursor>
    var loopVars: seq<int>
    var targetTime: real
    var stationary: bool
    ghost var executed: seq<Element>

    ghost predicate Valid()
      reads this
    {
      nextStatement.Some? ==> Good(nextStatement.value) && Linked(turtleScript, nextStatement.value)
    }

    ghost function Cfg(): Config
      reads this
    {
      Running(if nextStatement.Some? then At(nextStatement.value) else End, loopVars)
    }

    constructor (script: Element, now: real)
      ensures Valid() && turtleScript == script && Cfg() == Start(script) && executed == [] && targetTime == now
    {
      turtleScript := script;
      nextStatement := if script.children == [] then None else Some([Link(script.children, 0)]);
      loopVars := [];
      targetTime := now;
      stationary := false;
      executed := [];
    }

    /** False where the source calls error(). */
    method ExecuteStatement(stmt: Element) returns (ok: bool)
      modifies this`loopVars, this`targetTime, this`executed
      ensures ok <==> Execute(stmt, old(loopVars)).Some?
      ensures ok ==> Some(loopVars) == Execute(stmt, old(loopVars))
      ensures ok ==> targetTime == old(targetTime) + Duration(stmt) && executed == old(executed) + [stmt]
      ensures ok ==> targetTime == old(targetTime) + (if stmt.tag.Move? then stmt.tag.t else 0.0)
    {
      ok := true;
      match stmt.tag {
        case Repeat(nAttr) =>
          var n := INFINITE;
          if nAttr.Some? {
            n := nAttr.value;
            if n < 0 { return false; }
          }
          loopVars := loopVars + [n];
        case Move(t) =>
          if t < 0.0 { return false; }
          targetTime := targetTime + t;
        case Faulty =>
          return false;
      }
      executed := executed + [stmt];
    }

    /** False where the source's ASSERT fails. */
    method GotoNextStatement() returns (ok: bool)
      requires Valid() && nextStatement.Some?
      modifies this`nextStatement, this`loopVars
      ensures ok <==> GotoNext(old(nextStatement.value), old(loopVars)).Running?
      ensures ok ==> Valid() && Cfg() == GotoNext(old(nextStatement.value), old(loopVars))
      decreases |nextStatement.value|
    {
      ok := true;
      var p := nextStatement.value;
      var e := Node(p);
      LeaveLocated(turtleScript, p, loopVars);
      if e.children != [] && !(e.tag.Repeat? && loopVars != []) { return false; }

      if e.children != [] && Last(loopVars) != 0 {
        nextStatement := Some(FirstChild(p));
        return;
      }
      if e.children != [] { loopVars := Init(loopVars); }
      LeaveLocated(turtleScript, p, loopVars);

      if Last(p).i + 1 == |Last(p).siblings| {
        if !(if |p| == 1 then loopVars == [] else loopVars != []) { return false; }
        if loopVars != [] {
          if Last(loopVars) != INFINITE {
            loopVars := Init(loopVars) + [Last(loopVars) - 1];
          }
          if Last(loopVars) != 0 {
            nextStatement := Some(Sibling(p, 0));
          } else {
            nextStatement := Some(Init(p));
            ok := GotoNextStatement();
          }
        } else {
          nextStatement := None;
        }
      } else {
        nextStatement := Some(Sibling(p, Last(p).i + 1));
      }
    }

    /** The body of the loop of resumeScript; false on an error or a failing ASSERT. */
    method DoStatement() returns (ok: bool)
      requires Valid() && nextStatement.Some?
      modifies this`nextStatement, this`loopVars, this`targetTime, this`executed
      ensures ok <==> Step(old(Cfg())).Running?
      ensures ok ==> Valid() && Cfg() == Step(old(Cfg()))
      ensures ok ==> executed == old(executed) + [Node(old(nextStatement.value))]
      ensures ok ==> targetTime == old(targetTime) + Duration(Node(old(nextStatement.value)))
    {
      ok := ExecuteStatement(Node(nextStatement.value));
      if ok { ok := GotoNextStatement(); }
    }

    /** The same, within a run from c0 that has not taken time yet. */
    method ResumeStep(ghost c0: Config, ghost n: nat, ghost trace: seq<Element>, ghost m: nat) returns (ok: bool)
      requires Valid() && nextStatement.Some? && Located(turtleScript, c0)
      requires Underway(turtleScript, c0, n, trace, Cfg(), m) && Elapsed(trace) == 0.0
      modifies this`nextStatement, this`loopVars, this`targetTime, this`executed
      ensures n < m && (ok <==> Step(old(Cfg())).Running?)
      ensures ok ==>
                var e := Node(old(nextStatement.value));
                && Valid() && Underway(turtleScript, c0, n + 1, trace + [e], Cfg(), m)
                && executed == old(executed) + [e] && targetTime == old(targetTime) + Elapsed(trace + [e])
    {
      UnderwayStep(turtleScript, c0, n, trace, Cfg(), m);
      ok := DoStatement();
    }

    /** Executes statements until time advances, the script ends or a statement fails.
        One of these happens within some number m of statements: only an infinite repeat
        that never advances time is excluded, on which the loop does not end. */
    method ResumeScript(ghost m: nat) returns (ok: bool, ghost n: nat)
      requires Valid() && Halts(Exec(turtleScript, Cfg(), m))
      modifies this
      ensures n <= m
      ensures ok ==>
                var r := Exec(turtleScript, old(Cfg()), n);
                && Valid() && Cfg() == r.last && executed == old(executed) + r.trace
                && targetTime == old(targetTime) + Elapsed(r.trace)
                && (r.trace != [] ==> Instant(Init(r.trace)))
                && (targetTime > old(targetTime) || nextStatement.None?)
                && stationary == (old(stationary) || old(nextStatement.None?))
      ensures !ok ==>
                var r := Exec(turtleScript, old(Cfg()), n);
                && Instant(r.trace) && r.last.Running? && r.last.pos.At? && Good(r.last.pos.cursor)
                && Step(r.last).Failed?
    {
      n, ok := 0, true;
      if nextStatement.None? {
        stationary := true;
        return;
      }
      ghost var trace, c;
      ok, n, trace, c := RunStatements(m);
    }

    /** The loop of resumeScript; c is where it stopped. */
    method RunStatements(ghost m: nat) returns (ok: bool, ghost n: nat, ghost trace: seq<Element>, ghost c: Config)
      requires Valid() && Halts(Exec(turtleScript, Cfg(), m))
      modifies this`nextStatement, this`loopVars, this`targetTime, this`executed
      ensures Underway(turtleScript, old(Cfg()), n, trace, c, m) && c.Running?
      ensures if ok then Valid() && Cfg() == c else c.pos.At? && Step(c).Failed? && Elapsed(trace) == 0.0
      ensures ok ==> executed == old(executed) + trace && targetTime == old(targetTime) + Elapsed(trace)
      ensures ok ==> targetTime != old(targetTime) || nextStatement.None?
    {
      var now := targetTime;
      n, ok, trace, c := 0, true, [], Cfg();
      ghost var c0 := c;
      while nextStatement.Some? && targetTime == now
        invariant Valid() && Cfg() == c && ok && Underway(turtleScript, c0, n, trace, c, m)
        invariant executed == old(executed) + trace && targetTime == now + Elapsed(trace)
        decreases m - n
      {
        ghost var e := Node(nextStatement.value);
        ok := ResumeStep(c0, n, trace, m);
        if !ok { return; }
        n, trace, c := n + 1, trace + [e], Cfg();
      }
    }
  }
}
