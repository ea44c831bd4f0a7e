/**
 Overload dispatch in pybindgen/pybindgen/overloading.py: the C code that
 OverloadedWrapper.generate writes for several overloads, and what that code does.
 */
module OverloadDispatch {
  import opened Common

  // ---------- The generated code ----------

  datatype Line =
    | Call(delegate: nat, slot: nat)   // retval = delegate(self, ..., &exceptions[slot]);
    | IfParsed(slot: nat)              // if (!exceptions[slot]) {
    | DecRef(slot: nat)                // Py_DECREF(exceptions[slot]);
    | ReturnRetval                     // return retval;
    | EndIf                            // }
    | NewList(size: nat)               // error_list = PyList_New(size);
    | SetItem(item: nat, slot: nat)    // PyList_SET_ITEM(error_list, item, PyObject_Str(exceptions[slot]));
    | SetTypeError                     // PyErr_SetObject(PyExc_TypeError, error_list);
    | DecRefList                       // Py_DECREF(error_list);
    | ReturnError                      // return NULL;

  class CodeSink {
    var lines: seq<Line>

    constructor ()
      ensures lines == []
    {
      lines := [];
    }

    method WriteLn(l: Line)
      modifies this
      ensures lines == old(lines) + [l]
    {
      lines := lines + [l];
    }
  }

  function DecRefs(n: nat): seq<Line> {
    if n == 0 then [] else DecRefs(n - 1) + [DecRef(n - 1)]
  }

  /** The lines for one delegate. */
  function Attempt(delegate: nat, number: nat): seq<Line> {
    [Call(delegate, number), IfParsed(number)] + Block(number)
  }

  function Block(number: nat): seq<Line> {
    DecRefs(number) + [ReturnRetval] + [EndIf]
  }

  function Attempts(delegates: seq<nat>): seq<Line>
    decreases |delegates|
  {
    if delegates == [] then []
    else
      var n := |delegates| - 1;
      Attempts(delegates[..n]) + Attempt(delegates[n], n)
  }

  function Messages(n: nat): seq<Line> {
    if n == 0 then [] else Messages(n - 1) + [SetItem(n - 1, n - 1), DecRef(n - 1)]
  }

  /** The lines reached when no delegate could parse. */
  function Rejection(n: nat): seq<Line> {
    [NewList(n)] + Messages(n) + [SetTypeError, DecRefList, ReturnError]
  }

  function DispatchCode(delegates: seq<nat>): seq<Line> {
    Attempts(delegates) + Rejection(|delegates|)
  }

  /** The overloads whose own wrapper could be generated, in order. */
  function Generated(works: seq<bool>): seq<nat>
    decreases |works|
  {
    if works == [] then []
    else
      var n := |works| - 1;
      Generated(works[..n]) + if works[n] then [n] else []
  }

  method WriteAttempts(sink: CodeSink, delegates: seq<nat>)
    modifies sink
    ensures sink.lines == old(sink.lines) + Attempts(delegates)
  {
    for number := 0 to |delegates|
      invariant sink.lines == old(sink.lines) + Attempts(delegates[..number])
    {
      ghost var before := Attempts(delegates[..number]);
      assert delegates[..number + 1][..number] == delegates[..number];
      WriteAttempt(sink, delegates[number], number);
      Associate(old(sink.lines), before, Attempt(delegates[number], number));
    }
    assert delegates[..|delegates|] == delegates;
  }

  method WriteAttempt(sink: CodeSink, delegate: nat, number: nat)
    modifies sink
    ensures sink.lines == old(sink.lines) + Attempt(delegate, number)
  {
    sink.WriteLn(Call(delegate, number));
    sink.WriteLn(IfParsed(number));
    ghost var before := sink.lines;
    for i := 0 to number
      invariant sink.lines == before + DecRefs(i)
    {
      sink.WriteLn(DecRef(i));
    }
    sink.WriteLn(ReturnRetval);
    sink.WriteLn(EndIf);
    assert sink.lines == before + Block(number);
  }

  method WriteRejection(sink: CodeSink, n: nat)
    modifies sink
    ensures sink.lines == old(sink.lines) + Rejection(n)
  {
    sink.WriteLn(NewList(n));
    WriteMessages(sink, n);
    sink.WriteLn(SetTypeError);
    sink.WriteLn(DecRefList);
    sink.WriteLn(ReturnError);
  }

  method WriteMessages(sink: CodeSink, n: nat)
    modifies sink
    ensures sink.lines == old(sink.lines) + Messages(n)
  {
    for i := 0 to n
      invariant sink.lines == old(sink.lines) + Messages(i)
    {
      sink.WriteLn(SetItem(i, i));
      sink.WriteLn(DecRef(i));
    }
  }

  // ---------- Running the generated code ----------

  /** What a delegate does: it parses its arguments and returns a value (or NULL with an exception
      of its own), or it hands back its parse error. */
  datatype Outcome = Parsed(retval: int) | ParseError(message: string)

  /** An entry of the exceptions array: NULL, holding one reference, or a reference given back. */
  datatype Slot = Null | Held(message: string) | Released(message: string)

  datatype ErrorList = NoList | Live(items: seq<Option<string>>) | Freed

  datatype Result = Returned(retval: int) | Raised(messages: seq<Option<string>>)

  datatype Machine = Machine(slots: seq<Slot>, retval: int, list: ErrorList, pending: Option<seq<Option<string>>>,
                             skipping: bool, result: Option<Result>, calls: seq<nat>)

  function Start(n: nat): Machine {
    Machine(seq(n, _ => Null), 0, NoList, None, false, None, [])
  }

  /** One line; None where the code would use a NULL or released object. */
  function ExecOne(outcome: nat -> Outcome, l: Line, m: Machine): Option<Machine> {
    if m.result.Some? then Some(m)
    else if m.skipping then Some(if l.EndIf? then m.(skipping := false) else m)
    else
      match l
      case Call(d, i) =>
        if i >= |m.slots| then None
        else
          (match outcome(d)
           case Parsed(v) => Some(m.(retval := v, calls := m.calls + [d]))
           case ParseError(e) => Some(m.(slots := m.slots[i := Held(e)], calls := m.calls + [d])))
      case IfParsed(i) => if i >= |m.slots| then None else Some(m.(skipping := m.slots[i] != Null))
      case DecRef(i) =>
        if i >= |m.slots| || !m.slots[i].Held? then None else Some(m.(slots := m.slots[i := Released(m.slots[i].message)]))
      case ReturnRetval => Some(m.(result := Some(Returned(m.retval))))
      case EndIf => Some(m)
      case NewList(n) => Some(m.(list := Live(seq(n, _ => None))))
      case SetItem(i, j) =>
        if !m.list.Live? || i >= |m.list.items| || j >= |m.slots| || !m.slots[j].Held? then None
        else Some(m.(list := Live(m.list.items[i := Some(m.slots[j].message)])))
      case SetTypeError => if !m.list.Live? then None else Some(m.(pending := Some(m.list.items)))
      case DecRefList => if !m.list.Live? then None else Some(m.(list := Freed))
      case ReturnError => if m.pending.None? then None else Some(m.(result := Some(Raised(m.pending.value))))
  }

  function Exec(outcome: nat -> Outcome, code: seq<Line>, m: Machine): Option<Machine>
    decreases |code|
  {
    if code == [] then Some(m)
    else match Exec(outcome, code[..|code| - 1], m)
      case None => None
      case Some(m1) => ExecOne(outcome, code[|code| - 1], m1)
  }

  lemma {:induction false} ExecPush(outcome: nat -> Outcome, code: seq<Line>, l: Line, m: Machine)
    requires Exec(outcome, code, m).Some?
    ensures Exec(outcome, code + [l], m) == ExecOne(outcome, l, Exec(outcome, code, m).value)
  {
    assert (code + [l])[..|code|] == code;
  }

  lemma {:induction false} ExecConcat(outcome: nat -> Outcome, a: seq<Line>, b: seq<Line>, m: Machine)
    requires Exec(outcome, a, m).Some?
    ensures Exec(outcome, a + b, m) == Exec(outcome, b, Exec(outcome, a, m).value)
    decreases |b|
  {
    if b == [] {
      assert a + b == a;
    } else {
      var n := |b| - 1;
      ExecConcat(outcome, a, b[..n], m);
      assert a + b == (a + b[..n]) + [b[n]];
      assert (a + b)[..|a + b| - 1] == a + b[..n];
    }
  }

  lemma {:induction false} DoneStays(outcome: nat -> Outcome, code: seq<Line>, m: Machine)
    requires m.result.Some?
    ensures Exec(outcome, code, m) == Some(m)
    decreases |code|
  {
    if code != [] { DoneStays(outcome, code[..|code| - 1], m); }
  }

  /** The machine after the first k delegates have all failed to parse. */
  predicate AllFailed(outcome: nat -> Outcome, delegates: seq<nat>, k: nat, m: Machine)
    requires k <= |delegates|
  {
    && |m.slots| == |delegates| && m.calls == delegates[..k]
    && m.list == NoList && m.pending == None && !m.skipping && m.result == None
    && (forall i :: 0 <= i < k ==> outcome(delegates[i]).ParseError?)
    && (forall i :: 0 <= i < k ==> m.slots[i] == Held(outcome(delegates[i]).message))
    && forall i :: k <= i < |delegates| ==> m.slots[i] == Null
  }

  /** Giving back the first k held references, one by one. */
  lemma {:induction false} DecRefsRun(outcome: nat -> Outcome, m: Machine, k: nat)
    requires !m.skipping && m.result == None && k <= |m.slots| && forall i :: 0 <= i < k ==> m.slots[i].Held?
    ensures var r := Exec(outcome, DecRefs(k), m);
      && r.Some? && r.value == m.(slots := r.value.slots) && |r.value.slots| == |m.slots|
      && (forall i :: 0 <= i < k ==> r.value.slots[i] == Released(m.slots[i].message))
      && forall i :: k <= i < |m.slots| ==> r.value.slots[i] == m.slots[i]
    decreases k
  {
    if k > 0 {
      DecRefsRun(outcome, m, k - 1);
      ExecPush(outcome, DecRefs(k - 1), DecRef(k - 1), m);
    }
  }

  lemma {:induction false} SkipRun(outcome: nat -> Outcome, code: seq<Line>, m: Machine)
    requires m.skipping && m.result == None && forall i :: 0 <= i < |code| ==> !code[i].EndIf?
    ensures Exec(outcome, code, m) == Some(m)
    decreases |code|
  {
    if code != [] { SkipRun(outcome, code[..|code| - 1], m); }
  }

  lemma {:induction false} DecRefsPlain(k: nat)
    ensures forall i :: 0 <= i < |DecRefs(k)| ==> DecRefs(k)[i].DecRef?
    decreases k
  {
    if k > 0 { DecRefsPlain(k - 1); }
  }

  /** The two lines in front of the block of a delegate. */
  lemma {:induction false} CallRuns(outcome: nat -> Outcome, delegates: seq<nat>, k: nat, m: Machine)
    requires k < |delegates| && AllFailed(outcome, delegates, k, m)
    ensures var r := Exec(outcome, [Call(delegates[k], k), IfParsed(k)], m);
      && r.Some?
      && (outcome(delegates[k]).Parsed? ==>
            r.value == m.(retval := outcome(delegates[k]).retval, calls := m.calls + [delegates[k]]))
      && (outcome(delegates[k]).ParseError? ==>
            r.value == m.(slots := m.slots[k := Held(outcome(delegates[k]).message)], calls := m.calls + [delegates[k]],
                          skipping := true))
  {
    assert [Call(delegates[k], k)] == [] + [Call(delegates[k], k)];
    ExecPush(outcome, [], Call(delegates[k], k), m);
    assert [Call(delegates[k], k), IfParsed(k)] == [Call(delegates[k], k)] + [IfParsed(k)];
    ExecPush(outcome, [Call(delegates[k], k)], IfParsed(k), m);
  }

  /** A delegate that cannot parse leaves its exception and the next one is tried. */
  lemma {:induction false} AttemptFails(outcome: nat -> Outcome, delegates: seq<nat>, k: nat, m: Machine)
    requires k < |delegates| && AllFailed(outcome, delegates, k, m) && outcome(delegates[k]).ParseError?
    ensures var r := Exec(outcome, Attempt(delegates[k], k), m);
      r.Some? && AllFailed(outcome, delegates, k + 1, r.value)
  {
    CallRuns(outcome, delegates, k, m);
    var head := [Call(delegates[k], k), IfParsed(k)];
    var m1 := Exec(outcome, head, m).value;
    DecRefsPlain(k);
    SkipRun(outcome, DecRefs(k) + [ReturnRetval], m1);
    ExecPush(outcome, DecRefs(k) + [ReturnRetval], EndIf, m1);
    ExecConcat(outcome, head, Block(k), m);
    assert delegates[..k + 1] == delegates[..k] + [delegates[k]];
  }

  /** How the machine ends when delegate k is the first to parse. */
  predicate Delivered(outcome: nat -> Outcome, delegates: seq<nat>, k: nat, m: Machine)
    requires k < |delegates|
  {
    && outcome(delegates[k]).Parsed? && m.result == Some(Returned(outcome(delegates[k]).retval))
    && m.calls == delegates[..k + 1] && m.list == NoList && m.pending == None && |m.slots| == |delegates|
    && (forall i :: 0 <= i < k ==> outcome(delegates[i]).ParseError?)
    && (forall i :: 0 <= i < k ==> m.slots[i] == Released(outcome(delegates[i]).message))
    && forall i :: k <= i < |delegates| ==> m.slots[i] == Null
  }

  /** The block gives back the earlier exceptions and returns. */
  lemma {:induction false} BlockReturns(outcome: nat -> Outcome, m: Machine, k: nat)
    requires !m.skipping && m.result == None && k <= |m.slots| && forall i :: 0 <= i < k ==> m.slots[i].Held?
    ensures var r := Exec(outcome, Block(k), m);
      && r.Some? && r.value == m.(slots := r.value.slots, result := Some(Returned(m.retval)))
      && |r.value.slots| == |m.slots|
      && (forall i :: 0 <= i < k ==> r.value.slots[i] == Released(m.slots[i].message))
      && forall i :: k <= i < |m.slots| ==> r.value.slots[i] == m.slots[i]
  {
    DecRefsRun(outcome, m, k);
    ExecPush(outcome, DecRefs(k), ReturnRetval, m);
    ExecPush(outcome, DecRefs(k) + [ReturnRetval], EndIf, m);
  }

  lemma {:induction false} AttemptParses(outcome: nat -> Outcome, delegates: seq<nat>, k: nat, m: Machine)
    requires k < |delegates| && AllFailed(outcome, delegates, k, m) && outcome(delegates[k]).Parsed?
    ensures var r := Exec(outcome, Attempt(delegates[k], k), m);
      r.Some? && Delivered(outcome, delegates, k, r.value)
  {
    CallRuns(outcome, delegates, k, m);
    var head := [Call(delegates[k], k), IfParsed(k)];
    var m1 := Exec(outcome, head, m).value;
    BlockReturns(outcome, m1, k);
    ExecConcat(outcome, head, Block(k), m);
    assert delegates[..k + 1] == delegates[..k] + [delegates[k]];
  }

  /** The delegate that answers: the first one that parses, or their number if none does. */
  function First(outcome: nat -> Outcome, delegates: seq<nat>): (k: nat)
    ensures k <= |delegates|
    ensures forall i :: 0 <= i < k ==> outcome(delegates[i]).ParseError?
    ensures k < |delegates| ==> outcome(delegates[k]).Parsed?
    decreases |delegates|
  {
    if delegates == [] then 0
    else
      var n := |delegates| - 1;
      var k := First(outcome, delegates[..n]);
      assert forall i :: 0 <= i < n ==> delegates[..n][i] == delegates[i];
      if k < n then k else if outcome(delegates[n]).Parsed? then n else n + 1
  }

  lemma {:induction false} AttemptsRun(outcome: nat -> Outcome, delegates: seq<nat>, j: nat)
    requires j <= |delegates|
    ensures var r := Exec(outcome, Attempts(delegates[..j]), Start(|delegates|));
      var k := First(outcome, delegates);
      && r.Some?
      && (j <= k ==> AllFailed(outcome, delegates, j, r.value))
      && (k < j ==> Delivered(outcome, delegates, k, r.value))
    decreases j
  {
    if j > 0 {
      hide Exec, Attempt, AllFailed;
      AttemptsRun(outcome, delegates, j - 1);
      var before := Attempts(delegates[..j - 1]);
      var m := Exec(outcome, before, Start(|delegates|)).value;
      var k := First(outcome, delegates);
      assert delegates[..j][..j - 1] == delegates[..j - 1];
      ExecConcat(outcome, before, Attempt(delegates[j - 1], j - 1), Start(|delegates|));
      if k < j - 1 {
        DoneStays(outcome, Attempt(delegates[j - 1], j - 1), m);
      } else if k == j - 1 {
        AttemptParses(outcome, delegates, j - 1, m);
      } else {
        AttemptFails(outcome, delegates, j - 1, m);
      }
    }
  }

  /** The error list after the first k messages are in it, and their exceptions given back. */
  predicate Listing(outcome: nat -> Outcome, delegates: seq<nat>, k: nat, m: Machine)
    requires k <= |delegates|
  {
    && |m.slots| == |delegates| && m.calls == delegates && m.pending == None && !m.skipping && m.result == None
    && m.list.Live? && |m.list.items| == |delegates|
    && (forall i :: 0 <= i < |delegates| ==> outcome(delegates[i]).ParseError?)
    && (forall i :: 0 <= i < k ==> m.slots[i] == Released(outcome(delegates[i]).message))
    && (forall i :: 0 <= i < k ==> m.list.items[i] == Some(outcome(delegates[i]).message))
    && forall i :: k <= i < |delegates| ==> m.slots[i] == Held(outcome(delegates[i]).message)
  }

  /** One message goes into the list, and its exception is given back. */
  lemma {:induction false} MessageRuns(outcome: nat -> Outcome, delegates: seq<nat>, k: nat, m: Machine)
    requires k < |delegates| && Listing(outcome, delegates, k, m)
    ensures var r := ExecOne(outcome, SetItem(k, k), m);
      && r.Some? && ExecOne(outcome, DecRef(k), r.value).Some?
      && Listing(outcome, delegates, k + 1, ExecOne(outcome, DecRef(k), r.value).value)
  {}

  lemma {:induction false} MessagesRun(outcome: nat -> Outcome, delegates: seq<nat>, k: nat, m: Machine)
    requires k <= |delegates| && Listing(outcome, delegates, 0, m)
    ensures var r := Exec(outcome, Messages(k), m); r.Some? && Listing(outcome, delegates, k, r.value)
    decreases k
  {
    hide ExecOne, Listing;
    if k > 0 {
      MessagesRun(outcome, delegates, k - 1, m);
      MessageRuns(outcome, delegates, k - 1, Exec(outcome, Messages(k - 1), m).value);
      ExecPush(outcome, Messages(k - 1), SetItem(k - 1, k - 1), m);
      ExecPush(outcome, Messages(k - 1) + [SetItem(k - 1, k - 1)], DecRef(k - 1), m);
      assert Messages(k) == Messages(k - 1) + [SetItem(k - 1, k - 1)] + [DecRef(k - 1)];
    }
  }

  function AllMessages(outcome: nat -> Outcome, delegates: seq<nat>): seq<Option<string>>
    requires forall i :: 0 <= i < |delegates| ==> outcome(delegates[i]).ParseError?
  {
    seq(|delegates|, i requires 0 <= i < |delegates| => Some(outcome(delegates[i]).message))
  }

  /** How the machine ends when no delegate parses. */
  predicate Rejected(outcome: nat -> Outcome, delegates: seq<nat>, m: Machine) {
    && (forall i :: 0 <= i < |delegates| ==> outcome(delegates[i]).ParseError?)
    && m.result == Some(Raised(AllMessages(outcome, delegates)))
    && m.calls == delegates && m.list == Freed && |m.slots| == |delegates|
    && forall i :: 0 <= i < |delegates| ==> m.slots[i] == Released(outcome(delegates[i]).message)
  }

  lemma {:induction false} ListRuns(outcome: nat -> Outcome, delegates: seq<nat>, m: Machine)
    requires AllFailed(outcome, delegates, |delegates|, m)
    ensures var n := |delegates|;
      var r := Exec(outcome, [NewList(n)] + Messages(n), m);
      r.Some? && Listing(outcome, delegates, n, r.value)
  {
    var n := |delegates|;
    assert [] + [NewList(n)] == [NewList(n)] && Exec(outcome, [], m) == Some(m);
    ExecPush(outcome, [], NewList(n), m);
    var m1 := Exec(outcome, [NewList(n)], m).value;
    assert delegates[..n] == delegates;
    hide Exec, Messages;
    MessagesRun(outcome, delegates, n, m1);
    ExecConcat(outcome, [NewList(n)], Messages(n), m);
  }

  lemma {:induction false} EndingRuns(outcome: nat -> Outcome, delegates: seq<nat>, m: Machine)
    requires Listing(outcome, delegates, |delegates|, m)
    ensures var r := Exec(outcome, [SetTypeError, DecRefList, ReturnError], m);
      r.Some? && Rejected(outcome, delegates, r.value)
  {
    assert m.list.items == AllMessages(outcome, delegates);
    var m1 := m.(pending := Some(m.list.items));
    var m2 := m1.(list := Freed);
    var m3 := m2.(result := Some(Raised(m.list.items)));
    assert ExecOne(outcome, SetTypeError, m) == Some(m1) && ExecOne(outcome, DecRefList, m1) == Some(m2);
    assert ExecOne(outcome, ReturnError, m2) == Some(m3) && Rejected(outcome, delegates, m3);
    assert Exec(outcome, [], m) == Some(m);
    hide Exec, ExecOne, Listing, Rejected, AllMessages;
    ExecPush(outcome, [], SetTypeError, m);
    ExecPush(outcome, [SetTypeError], DecRefList, m);
    ExecPush(outcome, [SetTypeError] + [DecRefList], ReturnError, m);
    assert [] + [SetTypeError] == [SetTypeError];
    assert [SetTypeError] + [DecRefList] + [ReturnError] == [SetTypeError, DecRefList, ReturnError];
  }

  lemma {:induction false} TailRuns(outcome: nat -> Outcome, delegates: seq<nat>, m: Machine)
    requires AllFailed(outcome, delegates, |delegates|, m)
    ensures var r := Exec(outcome, Rejection(|delegates|), m);
      r.Some? && Rejected(outcome, delegates, r.value)
  {
    hide Exec, Messages, Listing, AllFailed;
    var n := |delegates|;
    var code := [NewList(n)] + Messages(n);
    ListRuns(outcome, delegates, m);
    EndingRuns(outcome, delegates, Exec(outcome, code, m).value);
    ExecConcat(outcome, code, [SetTypeError, DecRefList, ReturnError], m);
  }

  /** For every number of overloads and all their outcomes: the generated code tries them in order
      and returns the result of the first that parses its arguments, calling none after it; if none
      does, it raises one TypeError with all messages in order.  Every exception fetched is given
      back exactly once. */
  lemma {:induction false} DispatchIsFirstMatch(outcome: nat -> Outcome, delegates: seq<nat>)
    ensures var r := Exec(outcome, DispatchCode(delegates), Start(|delegates|));
      var k := First(outcome, delegates);
      && r.Some?
      && (k < |delegates| ==> Delivered(outcome, delegates, k, r.value))
      && (k == |delegates| ==> Rejected(outcome, delegates, r.value))
  {
    var n := |delegates|;
    AttemptsRun(outcome, delegates, n);
    assert delegates[..n] == delegates;
    var m := Exec(outcome, Attempts(delegates), Start(n)).value;
    ExecConcat(outcome, Attempts(delegates), Rejection(n), Start(n));
    if First(outcome, delegates) < n {
      DoneStays(outcome, Rejection(n), m);
    } else {
      TailRuns(outcome, delegates, m);
    }
  }

  // ---------- From the overloads to their answer ----------

  /** The overloads whose own wrapper could be generated. */
  function Working(works: seq<bool>): set<nat> {
    set i: nat | i < |works| && works[i]
  }

  lemma {:induction false} GeneratedLists(works: seq<bool>)
    ensures Lists(Working(works), Generated(works))
    decreases |works|
  {
    if works != [] {
      var n := |works| - 1;
      GeneratedLists(works[..n]);
      if works[n] {
        ListsPush(Working(works[..n]), Generated(works[..n]), n);
        assert Working(works) == Working(works[..n]) + {n};
      } else {
        assert Working(works) == Working(works[..n]);
      }
    }
  }

  lemma {:induction false} SomeGenerated(works: seq<bool>)
    ensures Generated(works) != [] <==> Working(works) != {}
  {
    GeneratedLists(works);
    if Generated(works) != [] {
      assert Generated(works)[0] in Working(works);
    }
  }

  /** The answer of overload i: it works and parses its arguments, and none before it does both. */
  ghost predicate Answers(works: seq<bool>, outcome: nat -> Outcome, i: nat) {
    i in Working(works) && outcome(i).Parsed? && forall j :: j in Working(works) && j < i ==> outcome(j).ParseError?
  }

  /** The code, run with an array of exceptions for the working overloads, returns the answer of the
      first one that parses, or raises the messages of all of them in their order; it calls them in
      their order and keeps no exception. */
  ghost predicate DispatchesFor(works: seq<bool>, outcome: nat -> Outcome, order: seq<nat>, code: seq<Line>) {
    var r := Exec(outcome, code, Start(|order|));
    && r.Some?
    && (forall i :: Answers(works, outcome, i) ==> r.value.result == Some(Returned(outcome(i).retval)))
    && ((forall i :: i in Working(works) ==> outcome(i).ParseError?) ==>
          exists messages :: r.value.result == Some(Raised(messages)) && MessagesInOrder(outcome, order, messages))
    && (forall k :: 0 <= k < |r.value.calls| ==> k < |order| && r.value.calls[k] == order[k])
    && forall k :: 0 <= k < |r.value.slots| ==> !r.value.slots[k].Held?
  }

  ghost predicate MessagesInOrder(outcome: nat -> Outcome, order: seq<nat>, messages: seq<Option<string>>) {
    |messages| == |order|
    && forall k :: 0 <= k < |order| ==> outcome(order[k]).ParseError? && messages[k] == Some(outcome(order[k]).message)
  }

  ghost predicate Dispatches(works: seq<bool>, code: seq<Line>) {
    forall outcome: nat -> Outcome, order: seq<nat> :: Lists(Working(works), order) ==>
      DispatchesFor(works, outcome, order, code)
  }

  lemma {:induction false} ListsOnce(s: set<nat>, a: seq<nat>, b: seq<nat>)
    requires Lists(s, a) && Lists(s, b)
    ensures a == b
    decreases |a|
  {
    assert a != [] ==> a[0] in s;
    assert b != [] ==> b[0] in s;
    if a != [] && b != [] {
      var m, n := |a| - 1, |b| - 1;
      assert a[m] in b && b[n] in a;
      assert a[m] == b[n];
      ListsPop(s, a);
      ListsPop(s, b);
      ListsOnce(s - {a[m]}, a[..m], b[..n]);
    }
  }

  lemma {:induction false} ListsPop(s: set<nat>, a: seq<nat>)
    requires Lists(s, a) && a != []
    ensures Lists(s - {a[|a| - 1]}, a[..|a| - 1])
  {
    var m := |a| - 1;
    assert a == a[..m] + [a[m]];
    assert forall i :: 0 <= i < m ==> a[..m][i] == a[i];
  }

  lemma {:induction false} GeneratedDispatches(works: seq<bool>)
    ensures Dispatches(works, DispatchCode(Generated(works)))
  {
    GeneratedLists(works);
    forall outcome: nat -> Outcome, order: seq<nat> | Lists(Working(works), order)
      ensures DispatchesFor(works, outcome, order, DispatchCode(Generated(works)))
    {
      ListsOnce(Working(works), order, Generated(works));
      OrderDispatches(works, outcome, order);
    }
  }

  lemma {:induction false} OrderDispatches(works: seq<bool>, outcome: nat -> Outcome, order: seq<nat>)
    requires Lists(Working(works), order)
    ensures DispatchesFor(works, outcome, order, DispatchCode(order))
  {
    DispatchIsFirstMatch(outcome, order);
    hide Exec, DispatchCode, Working;
    var k := First(outcome, order);
    if k < |order| {
      assert order[k] in Working(works);
      forall i | Answers(works, outcome, i)
        ensures i == order[k]
      {
        assert i in order;
        var j :| 0 <= j < |order| && order[j] == i;
      }
    } else {
      assert MessagesInOrder(outcome, order, AllMessages(outcome, order));
      forall i | i in Working(works)
        ensures outcome(i).ParseError?
      {
        assert i in order;
      }
    }
  }

  /** generate: works tells which wrappers can be generated, needsInterface whether the first one
      has NEEDS_OVERLOADING_INTERFACE set.  A single wrapper without it stands for itself.  ok is
      false where SkipWrapper is raised. */
  method Generate(sink: CodeSink, works: seq<bool>, needsInterface: bool) returns (ok: bool)
    modifies sink
    ensures ok <==> Working(works) != {}
    ensures sink.lines
         == old(sink.lines) + if ok && (|works| != 1 || needsInterface) then DispatchCode(Generated(works)) else []
    ensures ok && (|works| != 1 || needsInterface) ==> Dispatches(works, sink.lines[|old(sink.lines)|..])
  {
    SomeGenerated(works);
    GeneratedDispatches(works);
    hide Dispatches, Attempts, Rejection;
    if |works| == 0 {
      return false;
    }
    if |works| == 1 && !needsInterface {
      assert Working(works) == if works[0] then {0} else {};
      assert works[..0] == [];
      return works[0];
    }
    var delegateWrappers: seq<nat> := [];
    for number := 0 to |works|
      invariant delegateWrappers == Generated(works[..number])
    {
      assert works[..number + 1][..number] == works[..number];
      if works[number] {
        delegateWrappers := delegateWrappers + [number];
      }
    }
    assert works[..|works|] == works;
    if delegateWrappers == [] { return false; }
    WriteAttempts(sink, delegateWrappers);
    WriteRejection(sink, |delegateWrappers|);
    Associate(old(sink.lines), Attempts(delegateWrappers), Rejection(|delegateWrappers|));
    assert sink.lines[|old(sink.lines)|..] == DispatchCode(delegateWrappers);
    ok := true;
  }
}
