/**
 Ownership in the code that pybindgen/pybindgen/cppclass.py generates for classes with reference
 counting and without a helper class: what common_shared_object_return emits for a returned
 object, what the wrapper's deallocation emits, and the meaning of that code.
 */
module SharedReturn {
  import opened Common

  // ---------- Emitted code ----------

  /** One line of generated code; value is the returned pointer, py the wrapper variable. */
  datatype Stmt =
    | Lookup            // py = the registered wrapper of value, with a new reference, or NULL
    | IfNull            // if (py == NULL) {
    | Else              // } else {
    | CloseIf           // }
    | Allocate          // py = PyObject_New(...)
    | SetObj            // py->obj = value
    | SetFlags          // py->flags = PYBINDGEN_WRAPPER_FLAG_NONE
    | IncRef            // value->Ref()
    | DecRef            // value->Unref()
    | Register          // registry[py->obj] = py

  /** StdMapWrapperRegistry, or NullWrapperRegistry, which supports no lookup. */
  datatype RegistryKind = StdMap | NullRegistry

  class CodeBlock {
    var code: seq<Stmt>

    constructor ()
      ensures code == []
    {
      code := [];
    }

    method WriteCode(s: Stmt)
      modifies this
      ensures code == old(code) + [s]
    {
      code := code + [s];
    }
  }

  function NewWrapperCode(callerOwns: bool): seq<Stmt> {
    if callerOwns then [Allocate, SetObj, SetFlags] else [Allocate, SetFlags, IncRef, SetObj]
  }

  function ReturnCode(kind: RegistryKind, callerOwns: bool): seq<Stmt> {
    match kind
    case NullRegistry => NewWrapperCode(callerOwns)
    case StdMap =>
      [Lookup, IfNull] + NewWrapperCode(callerOwns) + [Register] + (if callerOwns then [Else, DecRef, CloseIf] else [CloseIf])
  }

  method WriteCreateNewWrapper(block: CodeBlock, callerOwns: bool)
    modifies block
    ensures block.code == old(block.code) + NewWrapperCode(callerOwns)
  {
    block.WriteCode(Allocate);
    if callerOwns {
      block.WriteCode(SetObj);
      block.WriteCode(SetFlags);
    } else {
      block.WriteCode(SetFlags);
      block.WriteCode(IncRef);
      block.WriteCode(SetObj);
    }
  }

  /** common_shared_object_return for a reference-counted class, no helper class and
      caller_manages_return. */
  method CommonSharedObjectReturn(block: CodeBlock, kind: RegistryKind, callerOwns: bool)
    modifies block
    ensures block.code == old(block.code) + ReturnCode(kind, callerOwns)
  {
    if kind.NullRegistry? {
      WriteCreateNewWrapper(block, callerOwns);
    } else {
      block.WriteCode(Lookup);
      block.WriteCode(IfNull);
      WriteCreateNewWrapper(block, callerOwns);
      block.WriteCode(Register);
      if callerOwns {
        block.WriteCode(Else);
        block.WriteCode(DecRef);
        block.WriteCode(CloseIf);
      } else {
        block.WriteCode(CloseIf);
      }
    }
  }

  // ---------- The state the code runs in ----------

  datatype Wrapper = Wrapper(obj: Option<nat>, pyrefs: nat)

  /** count holds the reference count of every living object, outside the references held by C++
      code; the number of an object that was deleted may be used again. */
  datatype Heap = Heap(count: map<nat, nat>, outside: map<nat, nat>, wrappers: map<nat, Wrapper>,
                       registry: map<nat, nat>, next: nat)

  /** Unref: the object is deleted with its last reference.  None is a use after deletion. */
  function Unref(h: Heap, o: nat): Option<Heap> {
    if o !in h.count || h.count[o] == 0 then None
    else if h.count[o] == 1 then Some(h.(count := h.count - {o}))
    else Some(h.(count := h.count[o := h.count[o] - 1]))
  }

  /** Where the execution is: running, in a branch not taken before Else, or after one taken. */
  datatype Mode = Run | SkipThen | SkipElse

  datatype Local = Local(h: Heap, py: Option<nat>, mode: Mode)

  function ExecOne(s: Stmt, l: Local, o: nat): Option<Local> {
    if l.mode == SkipThen then Some(if s == Else || s == CloseIf then l.(mode := Run) else l)
    else if l.mode == SkipElse then Some(if s == CloseIf then l.(mode := Run) else l)
    else
      match s
      case Lookup =>
        if o !in l.h.registry then Some(l.(py := None))
        else
          var w := l.h.registry[o];
          if w !in l.h.wrappers then None
          else
            var x := l.h.wrappers[w];
            Some(l.(py := Some(w), h := l.h.(wrappers := l.h.wrappers[w := x.(pyrefs := x.pyrefs + 1)])))
      case IfNull => Some(if l.py.None? then l else l.(mode := SkipThen))
      case Else => Some(l.(mode := SkipElse))
      case CloseIf => Some(l)
      case Allocate =>
        Some(l.(py := Some(l.h.next),
                h := l.h.(wrappers := l.h.wrappers[l.h.next := Wrapper(None, 1)], next := l.h.next + 1)))
      case SetObj =>
        if l.py.None? || l.py.value !in l.h.wrappers then None
        else Some(l.(h := l.h.(wrappers := l.h.wrappers[l.py.value := l.h.wrappers[l.py.value].(obj := Some(o))])))
      case SetFlags => Some(l)
      case IncRef => if o !in l.h.count then None else Some(l.(h := l.h.(count := l.h.count[o := l.h.count[o] + 1])))
      case DecRef =>
        (match Unref(l.h, o)
         case None => None
         case Some(h) => Some(l.(h := h)))
      case Register =>
        if l.py.None? || l.py.value !in l.h.wrappers || l.h.wrappers[l.py.value].obj.None? then None
        else Some(l.(h := l.h.(registry := l.h.registry[l.h.wrappers[l.py.value].obj.value := l.py.value])))
  }

  function Exec(code: seq<Stmt>, l: Local, o: nat): Option<Local>
    decreases |code|
  {
    if code == [] then Some(l)
    else match ExecOne(code[0], l, o)
      case None => None
      case Some(l1) => Exec(code[1..], l1, o)
  }

  /** get_delete_code: if (self->obj) { tmp = self->obj; self->obj = NULL; tmp->Unref(); } */
  function DeleteCode(h: Heap, w: nat): Option<Heap>
    requires w in h.wrappers
  {
    var x := h.wrappers[w];
    if x.obj.None? then Some(h)
    else Unref(h.(wrappers := h.wrappers[w := x.(obj := None)]), x.obj.value)
  }

  /** tp_dealloc: unregister the object, run the delete code once, or twice where tp_clear also
      runs, and free the wrapper. */
  function Dealloc(kind: RegistryKind, h: Heap, w: nat, twice: bool): Option<Heap>
    requires w in h.wrappers
  {
    var x := h.wrappers[w];
    var h1 := if kind.StdMap? && x.obj.Some? then h.(registry := h.registry - {x.obj.value}) else h;
    match DeleteCode(h1, w)
    case None => None
    case Some(h2) =>
      match if twice && w in h2.wrappers then DeleteCode(h2, w) else Some(h2)
      case None => None
      case Some(h3) => Some(h3.(wrappers := h3.wrappers - {w}))
  }

  // ---------- The steps of a program ----------

  datatype Step =
    | Create(o: nat)              // C++ creates an object and holds one reference
    | TakeRef(o: nat)             // C++ takes another reference
    | DropRef(o: nat)             // C++ drops a reference
    | ReturnOwned(o: nat)         // a call hands one of the C++ references to Python
    | ReturnShared(o: nat)        // a call returns an object without handing over a reference
    | PyTake(w: nat)              // Python takes another reference to a wrapper
    | PyDrop(w: nat, twice: bool) // Python drops one; the last one deallocates

  predicate Allowed(h: Heap, s: Step) {
    match s
    case Create(o) => o !in h.count
    case TakeRef(o) => o in h.count
    case DropRef(o) => o in h.outside && h.outside[o] > 0
    case ReturnOwned(o) => o in h.outside && h.outside[o] > 0
    case ReturnShared(o) => o in h.count
    case PyTake(w) => w in h.wrappers
    case PyDrop(w, _) => w in h.wrappers
  }

  function Outside(h: Heap, o: nat): nat { if o in h.outside then h.outside[o] else 0 }

  /** The heap after a step, None if some code used a deleted object or a wrapper that is gone. */
  function After(kind: RegistryKind, h: Heap, s: Step): Option<Heap>
    requires Allowed(h, s)
  {
    match s
    case Create(o) => Some(h.(count := h.count[o := 1], outside := h.outside[o := 1]))
    case TakeRef(o) => Some(h.(count := h.count[o := h.count[o] + 1], outside := h.outside[o := Outside(h, o) + 1]))
    case DropRef(o) => Unref(h.(outside := h.outside[o := h.outside[o] - 1]), o)
    case ReturnOwned(o) => Returned(kind, h.(outside := h.outside[o := h.outside[o] - 1]), o, true)
    case ReturnShared(o) => Returned(kind, h, o, false)
    case PyTake(w) => Some(h.(wrappers := h.wrappers[w := h.wrappers[w].(pyrefs := h.wrappers[w].pyrefs + 1)]))
    case PyDrop(w, twice) =>
      if h.wrappers[w].pyrefs > 1 then
        Some(h.(wrappers := h.wrappers[w := h.wrappers[w].(pyrefs := h.wrappers[w].pyrefs - 1)]))
      else Dealloc(kind, h, w, twice)
  }

  function Returned(kind: RegistryKind, h: Heap, o: nat, callerOwns: bool): Option<Heap> {
    match Exec(ReturnCode(kind, callerOwns), Local(h, None, Run), o)
    case None => None
    case Some(l) => Some(l.h)
  }

  // ---------- The invariant ----------

  /** The wrappers that hold object o. */
  function Holders(h: Heap, o: nat): set<nat> {
    set w | w in h.wrappers && h.wrappers[w].obj == Some(o)
  }

  /** Nobody holds a deleted object, and the wrapper numbers are used up to next. */
  predicate Tidy(h: Heap) {
    && (forall o :: o in h.outside && o !in h.count ==> h.outside[o] == 0)
    && (forall w :: w in h.wrappers ==> h.wrappers[w].obj.Some? && h.wrappers[w].obj.value in h.count)
    && (forall w :: w in h.wrappers ==> w < h.next && h.wrappers[w].pyrefs > 0)
  }

  /** The reference count of every living object is the number of references C++ holds plus the
      number of wrappers that hold it, and `extra` more for object o. */
  predicate CountsRight(h: Heap, o: nat, extra: nat) {
    forall x :: x in h.count ==>
      h.count[x] == Outside(h, x) + |Holders(h, x)| + (if x == o then extra else 0) && h.count[x] > 0
  }

  /** With the map, the registry knows exactly the living wrappers, one for each object. */
  predicate RegistryRight(kind: RegistryKind, h: Heap) {
    if kind.NullRegistry? then h.registry == map[]
    else
      && (forall o :: o in h.registry ==> h.registry[o] in h.wrappers && h.wrappers[h.registry[o]].obj == Some(o))
      && (forall w :: w in h.wrappers && h.wrappers[w].obj.Some? ==>
            h.wrappers[w].obj.value in h.registry && h.registry[h.wrappers[w].obj.value] == w)
  }

  predicate Inv(kind: RegistryKind, h: Heap) {
    CountsRight(h, 0, 0) && Tidy(h) && RegistryRight(kind, h)
  }

  const EMPTY := Heap(map[], map[], map[], map[], 0)

  // ---------- What the emitted code does ----------

  /** A new wrapper for o, registered if there is a registry; the count stays as it is. */
  function Wrapped(kind: RegistryKind, h: Heap, o: nat): Heap {
    h.(wrappers := h.wrappers[h.next := Wrapper(Some(o), 1)], next := h.next + 1,
       registry := if kind.StdMap? then h.registry[o := h.next] else h.registry)
  }

  function Reused(h: Heap, w: nat): Heap
    requires w in h.wrappers
  {
    h.(wrappers := h.wrappers[w := h.wrappers[w].(pyrefs := h.wrappers[w].pyrefs + 1)])
  }

  lemma {:induction false} ExecCons(s: Stmt, rest: seq<Stmt>, l: Local, o: nat)
    ensures ExecOne(s, l, o).None? ==> Exec([s] + rest, l, o) == None
    ensures ExecOne(s, l, o).Some? ==> Exec([s] + rest, l, o) == Exec(rest, ExecOne(s, l, o).value, o)
  {
    assert ([s] + rest)[0] == s && ([s] + rest)[1..] == rest;
  }

  lemma {:induction false} ExecNewOwned(l: Local, rest: seq<Stmt>, o: nat)
    requires l.mode == Run && l.h.next !in l.h.wrappers
    ensures Exec(NewWrapperCode(true) + rest, l, o)
         == Exec(rest, l.(py := Some(l.h.next), h := Wrapped(NullRegistry, l.h, o)), o)
  {
    assert NewWrapperCode(true) + rest == [Allocate] + ([SetObj] + ([SetFlags] + rest));
    ExecCons(Allocate, [SetObj] + ([SetFlags] + rest), l, o);
    var l1 := ExecOne(Allocate, l, o).value;
    ExecCons(SetObj, [SetFlags] + rest, l1, o);
    var l2 := ExecOne(SetObj, l1, o).value;
    ExecCons(SetFlags, rest, l2, o);
    assert l2.h == Wrapped(NullRegistry, l.h, o);
  }

  lemma {:induction false} ExecNewShared(l: Local, rest: seq<Stmt>, o: nat)
    requires l.mode == Run && l.h.next !in l.h.wrappers && o in l.h.count
    ensures Exec(NewWrapperCode(false) + rest, l, o)
         == Exec(rest, l.(py := Some(l.h.next), h := Wrapped(NullRegistry, l.h, o).(count := l.h.count[o := l.h.count[o] + 1])), o)
  {
    assert NewWrapperCode(false) + rest == [Allocate] + ([SetFlags] + ([IncRef] + ([SetObj] + rest)));
    ExecCons(Allocate, [SetFlags] + ([IncRef] + ([SetObj] + rest)), l, o);
    var l1 := ExecOne(Allocate, l, o).value;
    ExecCons(SetFlags, [IncRef] + ([SetObj] + rest), l1, o);
    ExecCons(IncRef, [SetObj] + rest, l1, o);
    var l2 := ExecOne(IncRef, l1, o).value;
    ExecCons(SetObj, rest, l2, o);
    assert ExecOne(SetObj, l2, o).value.h == Wrapped(NullRegistry, l.h, o).(count := l.h.count[o := l.h.count[o] + 1]);
  }

  /** No registered wrapper: a new one, which adopts the reference or takes one of its own. */
  lemma {:induction false} ReturnedNew(kind: RegistryKind, h: Heap, o: nat, callerOwns: bool)
    requires h.next !in h.wrappers && o in h.count && (kind.StdMap? ==> o !in h.registry)
    ensures Returned(kind, h, o, callerOwns)
         == Some(Wrapped(kind, h, o).(count := if callerOwns then h.count else h.count[o := h.count[o] + 1]))
  {
    var l := Local(h, None, Run);
    var done := Wrapped(NullRegistry, h, o).(count := if callerOwns then h.count else h.count[o := h.count[o] + 1]);
    var after := Local(done, Some(h.next), Run);
    if kind.NullRegistry? {
      assert ReturnCode(kind, callerOwns) == NewWrapperCode(callerOwns) + [];
      if callerOwns { ExecNewOwned(l, [], o); } else { ExecNewShared(l, [], o); }
    } else {
      var tail := if callerOwns then [Else, DecRef, CloseIf] else [CloseIf];
      assert ReturnCode(kind, callerOwns) == [Lookup] + ([IfNull] + (NewWrapperCode(callerOwns) + ([Register] + tail)));
      ExecCons(Lookup, [IfNull] + (NewWrapperCode(callerOwns) + ([Register] + tail)), l, o);
      ExecCons(IfNull, NewWrapperCode(callerOwns) + ([Register] + tail), l, o);
      if callerOwns { ExecNewOwned(l, [Register] + tail, o); } else { ExecNewShared(l, [Register] + tail, o); }
      ExecCons(Register, tail, after, o);
      var registered := ExecOne(Register, after, o).value;
      ExecTail(registered, callerOwns, o);
    }
  }

  lemma {:induction false} ExecTail(l: Local, callerOwns: bool, o: nat)
    requires l.mode == Run
    ensures Exec(if callerOwns then [Else, DecRef, CloseIf] else [CloseIf], l, o) == Some(l)
  {
    if callerOwns {
      assert [Else, DecRef, CloseIf] == [Else] + ([DecRef] + ([CloseIf] + []));
      ExecCons(Else, [DecRef] + ([CloseIf] + []), l, o);
      ExecCons(DecRef, [CloseIf] + [], l.(mode := SkipElse), o);
      ExecCons(CloseIf, [], l.(mode := SkipElse), o);
    } else {
      assert [CloseIf] == [CloseIf] + [];
      ExecCons(CloseIf, [], l, o);
    }
  }

  lemma {:induction false} SkipAll(code: seq<Stmt>, rest: seq<Stmt>, l: Local, o: nat)
    requires l.mode == SkipThen && forall i :: 0 <= i < |code| ==> code[i] != Else && code[i] != CloseIf
    ensures Exec(code + rest, l, o) == Exec(rest, l, o)
    decreases |code|
  {
    if code == [] {
      assert code + rest == rest;
    } else {
      assert code + rest == [code[0]] + (code[1..] + rest);
      ExecCons(code[0], code[1..] + rest, l, o);
      SkipAll(code[1..], rest, l, o);
    }
  }

  /** The statements after the skipped branch. */
  lemma {:induction false} KnownTail(l: Local, callerOwns: bool, o: nat)
    requires l.mode == SkipThen
    ensures var r := Exec(if callerOwns then [Else, DecRef, CloseIf] else [CloseIf], l, o);
      if !callerOwns then r == Some(l.(mode := Run))
      else if Unref(l.h, o).None? then r == None
      else r == Some(l.(mode := Run, h := Unref(l.h, o).value))
  {
    if callerOwns {
      assert [Else, DecRef, CloseIf] == [Else] + ([DecRef] + ([CloseIf] + []));
      ExecCons(Else, [DecRef] + ([CloseIf] + []), l, o);
      ExecCons(DecRef, [CloseIf] + [], l.(mode := Run), o);
      if Unref(l.h, o).Some? {
        ExecCons(CloseIf, [], l.(mode := Run, h := Unref(l.h, o).value), o);
      }
    } else {
      assert [CloseIf] == [CloseIf] + [];
      ExecCons(CloseIf, [], l, o);
    }
  }

  /** A registered wrapper is used again, and a reference handed over is given back. */
  lemma {:induction false} ReturnedKnown(h: Heap, o: nat, callerOwns: bool)
    requires o in h.registry && h.registry[o] in h.wrappers
    ensures Returned(StdMap, h, o, callerOwns)
         == if callerOwns then Unref(Reused(h, h.registry[o]), o) else Some(Reused(h, h.registry[o]))
  {
    var w := h.registry[o];
    var l := Local(h, None, Run);
    var tail := if callerOwns then [Else, DecRef, CloseIf] else [CloseIf];
    var body := NewWrapperCode(callerOwns) + [Register];
    assert ReturnCode(StdMap, callerOwns) == [Lookup] + ([IfNull] + (body + tail));
    hide Exec, NewWrapperCode, ReturnCode;
    ExecCons(Lookup, [IfNull] + (body + tail), l, o);
    var found := Local(Reused(h, w), Some(w), Run);
    ExecCons(IfNull, body + tail, found, o);
    var skipping := found.(mode := SkipThen);
    assert forall i :: 0 <= i < |body| ==> body[i] != Else && body[i] != CloseIf;
    SkipAll(body, tail, skipping, o);
    KnownTail(skipping, callerOwns, o);
  }

  // ---------- Every step keeps the invariant ----------

  /** The invariant, but for one reference to o that is on its way. */
  predicate InTransit(kind: RegistryKind, h: Heap, o: nat) {
    o in h.count && CountsRight(h, o, 1) && Tidy(h) && RegistryRight(kind, h)
  }

  /** Two heaps whose wrappers hold the same objects. */
  lemma {:induction false} SameHolders(h: Heap, u: Heap)
    requires u.wrappers.Keys == h.wrappers.Keys
    requires forall w :: w in h.wrappers ==> u.wrappers[w].obj == h.wrappers[w].obj
    ensures forall x :: Holders(u, x) == Holders(h, x)
  {
    forall x
      ensures Holders(u, x) == Holders(h, x)
    {
      assert forall w :: w in u.wrappers.Keys <==> w in h.wrappers.Keys;
    }
  }

  /** It is released ... */
  lemma {:induction false} ReleaseEndsTransit(kind: RegistryKind, h: Heap, o: nat)
    requires InTransit(kind, h, o)
    ensures Unref(h, o).Some? && Inv(kind, Unref(h, o).value)
  {
    var u := Unref(h, o).value;
    SameHolders(h, u);
    assert forall x :: Outside(u, x) == Outside(h, x);
    assert CountsRight(u, 0, 0);
    NoHolderNoWrapper(h, o);
    assert RegistryRight(kind, u);
  }

  lemma {:induction false} NoHolderNoWrapper(h: Heap, o: nat)
    ensures |Holders(h, o)| == 0 ==> forall w :: w in h.wrappers ==> h.wrappers[w].obj != Some(o)
  {
    forall w | w in h.wrappers && h.wrappers[w].obj == Some(o)
      ensures |Holders(h, o)| > 0
    {
      assert w in Holders(h, o);
    }
  }

  /** ... or adopted by a new wrapper. */
  lemma {:induction false} AdoptionEndsTransit(kind: RegistryKind, h: Heap, o: nat)
    requires InTransit(kind, h, o) && (kind.StdMap? ==> o !in h.registry)
    ensures Inv(kind, Wrapped(kind, h, o))
  {
    AdoptionCounts(kind, h, o);
    AdoptionRegisters(kind, h, o);
  }

  lemma {:induction false} AdoptionRegisters(kind: RegistryKind, h: Heap, o: nat)
    requires Tidy(h) && RegistryRight(kind, h) && o in h.count && (kind.StdMap? ==> o !in h.registry)
    ensures RegistryRight(kind, Wrapped(kind, h, o)) && Tidy(Wrapped(kind, h, o))
  {}

  lemma {:induction false} HoldersWrapped(kind: RegistryKind, h: Heap, o: nat, x: nat)
    requires Tidy(h)
    ensures |Holders(Wrapped(kind, h, o), x)| == |Holders(h, x)| + if x == o then 1 else 0
  {
    var u := Wrapped(kind, h, o);
    if x == o {
      assert Holders(u, o) == Holders(h, o) + {h.next} && h.next !in Holders(h, o);
    } else {
      assert Holders(u, x) == Holders(h, x);
    }
  }

  lemma {:induction false} AdoptionCounts(kind: RegistryKind, h: Heap, o: nat)
    requires Tidy(h) && CountsRight(h, o, 1)
    ensures CountsRight(Wrapped(kind, h, o), 0, 0)
  {
    var u := Wrapped(kind, h, o);
    forall x | x in u.count
      ensures u.count[x] == Outside(u, x) + |Holders(u, x)| && u.count[x] > 0
    {
      HoldersWrapped(kind, h, o, x);
    }
  }

  lemma {:induction false} HandingOver(kind: RegistryKind, h: Heap, o: nat)
    requires Inv(kind, h) && o in h.outside && h.outside[o] > 0
    ensures InTransit(kind, h.(outside := h.outside[o := h.outside[o] - 1]), o)
  {
    var u := h.(outside := h.outside[o := h.outside[o] - 1]);
    SameHolders(h, u);
  }

  lemma {:induction false} NewReference(kind: RegistryKind, h: Heap, o: nat)
    requires Inv(kind, h) && o in h.count
    ensures InTransit(kind, h.(count := h.count[o := h.count[o] + 1]), o)
  {
    var u := h.(count := h.count[o := h.count[o] + 1]);
    SameHolders(h, u);
  }

  lemma {:induction false} ReuseKeeps(kind: RegistryKind, h: Heap, w: nat, o: nat)
    requires w in h.wrappers
    ensures Inv(kind, h) ==> Inv(kind, Reused(h, w))
    ensures InTransit(kind, h, o) ==> InTransit(kind, Reused(h, w), o)
  {
    PyRefsOnly(kind, h, Reused(h, w), o);
  }

  /** Changing how many references Python has to the wrappers. */
  lemma {:induction false} PyRefsOnly(kind: RegistryKind, h: Heap, u: Heap, o: nat)
    requires u == h.(wrappers := u.wrappers) && u.wrappers.Keys == h.wrappers.Keys
    requires forall w :: w in h.wrappers ==> u.wrappers[w].obj == h.wrappers[w].obj
    requires forall w :: w in h.wrappers && h.wrappers[w].pyrefs > 0 ==> u.wrappers[w].pyrefs > 0
    ensures Inv(kind, h) ==> Inv(kind, u)
    ensures InTransit(kind, h, o) ==> InTransit(kind, u, o)
  {
    SameHolders(h, u);
    assert forall x :: Outside(u, x) == Outside(h, x);
    assert Tidy(h) ==> Tidy(u);
    RegistryKept(kind, h, u);
  }

  lemma {:induction false} RegistryKept(kind: RegistryKind, h: Heap, u: Heap)
    requires u.registry == h.registry && u.wrappers.Keys == h.wrappers.Keys
    requires forall w :: w in h.wrappers ==> u.wrappers[w].obj == h.wrappers[w].obj
    ensures RegistryRight(kind, h) ==> RegistryRight(kind, u)
  {
    assert forall w :: w in h.wrappers <==> w in u.wrappers.Keys;
  }

  /** The heap without wrapper w and its registration. */
  function Without(kind: RegistryKind, h: Heap, w: nat): Heap
    requires w in h.wrappers && h.wrappers[w].obj.Some?
  {
    h.(wrappers := h.wrappers - {w},
       registry := if kind.StdMap? then h.registry - {h.wrappers[w].obj.value} else h.registry)
  }

  lemma {:induction false} WrapperLetsGo(kind: RegistryKind, h: Heap, w: nat)
    requires Inv(kind, h) && w in h.wrappers
    ensures InTransit(kind, Without(kind, h, w), h.wrappers[w].obj.value)
  {
    LettingGoUnregisters(kind, h, w);
    LettingGoCounts(kind, h, w);
  }

  lemma {:induction false} LettingGoUnregisters(kind: RegistryKind, h: Heap, w: nat)
    requires Tidy(h) && RegistryRight(kind, h) && w in h.wrappers
    ensures RegistryRight(kind, Without(kind, h, w)) && Tidy(Without(kind, h, w))
  {}

  lemma {:induction false} HoldersWithout(kind: RegistryKind, h: Heap, w: nat, x: nat)
    requires w in h.wrappers && h.wrappers[w].obj.Some?
    ensures |Holders(h, x)| == |Holders(Without(kind, h, w), x)| + if h.wrappers[w].obj.value == x then 1 else 0
  {
    var u := Without(kind, h, w);
    if h.wrappers[w].obj.value == x {
      assert Holders(h, x) == Holders(u, x) + {w} && w !in Holders(u, x);
    } else {
      assert Holders(u, x) == Holders(h, x);
    }
  }

  lemma {:induction false} LettingGoCounts(kind: RegistryKind, h: Heap, w: nat)
    requires CountsRight(h, 0, 0) && w in h.wrappers && h.wrappers[w].obj.Some?
    ensures CountsRight(Without(kind, h, w), h.wrappers[w].obj.value, 1)
  {
    var u, o := Without(kind, h, w), h.wrappers[w].obj.value;
    forall x | x in u.count
      ensures u.count[x] == Outside(u, x) + |Holders(u, x)| + (if x == o then 1 else 0) && u.count[x] > 0
    {
      HoldersWithout(kind, h, w, x);
    }
  }

  /** Deallocation releases the wrapper's reference once, also if the delete code runs twice. */
  lemma {:induction false} DeallocReleasesOnce(kind: RegistryKind, h: Heap, w: nat, twice: bool)
    requires w in h.wrappers && h.wrappers[w].obj.Some?
    ensures Dealloc(kind, h, w, twice) == Unref(Without(kind, h, w), h.wrappers[w].obj.value)
  {
    var x := h.wrappers[w];
    var o := x.obj.value;
    var h1 := if kind.StdMap? then h.(registry := h.registry - {o}) else h;
    var h2 := h1.(wrappers := h1.wrappers[w := x.(obj := None)]);
    assert h2.wrappers - {w} == h.wrappers - {w};
    if Unref(h2, o).Some? {
      var h3 := Unref(h2, o).value;
      assert w in h3.wrappers && h3.wrappers[w].obj.None?;
      assert h3.(wrappers := h3.wrappers - {w}) == Unref(Without(kind, h, w), o).value;
    }
  }

  lemma {:induction false} ReturnKeeps(kind: RegistryKind, h: Heap, o: nat)
    requires Inv(kind, h) && o in h.count
    ensures var r := Returned(kind, h, o, false); r.Some? && Inv(kind, r.value)
  {
    hide CountsRight, Tidy, Returned;
    if kind.StdMap? && o in h.registry {
      ReturnedKnown(h, o, false);
      ReuseKeeps(kind, h, h.registry[o], o);
    } else {
      NextIsFree(h);
      ReturnedNew(kind, h, o, false);
      NewReference(kind, h, o);
      var more := h.(count := h.count[o := h.count[o] + 1]);
      AdoptionEndsTransit(kind, more, o);
      assert Wrapped(kind, h, o).(count := more.count) == Wrapped(kind, more, o);
    }
  }

  lemma {:induction false} NextIsFree(h: Heap)
    requires Tidy(h)
    ensures h.next !in h.wrappers
  {}

  lemma {:induction false} OwnedReturnKeeps(kind: RegistryKind, h: Heap, o: nat)
    requires InTransit(kind, h, o)
    ensures var r := Returned(kind, h, o, true); r.Some? && Inv(kind, r.value)
  {
    if kind.StdMap? && o in h.registry {
      ReturnedKnown(h, o, true);
      ReuseKeeps(kind, h, h.registry[o], o);
      ReleaseEndsTransit(kind, Reused(h, h.registry[o]), o);
    } else {
      ReturnedNew(kind, h, o, true);
      AdoptionEndsTransit(kind, h, o);
    }
  }

  lemma {:induction false} CreateKeeps(kind: RegistryKind, h: Heap, o: nat)
    requires Inv(kind, h) && o !in h.count
    ensures Inv(kind, h.(count := h.count[o := 1], outside := h.outside[o := 1]))
  {
    var u := h.(count := h.count[o := 1], outside := h.outside[o := 1]);
    NobodyHolds(h, o);
    SameHolders(h, u);
    assert Tidy(u);
  }

  lemma {:induction false} NobodyHolds(h: Heap, o: nat)
    requires Tidy(h) && o !in h.count
    ensures Holders(h, o) == {}
  {
    assert forall w :: w in h.wrappers ==> h.wrappers[w].obj.value in h.count;
  }

  lemma {:induction false} TakeRefKeeps(kind: RegistryKind, h: Heap, o: nat)
    requires Inv(kind, h) && o in h.count
    ensures Inv(kind, h.(count := h.count[o := h.count[o] + 1], outside := h.outside[o := Outside(h, o) + 1]))
  {
    var u := h.(count := h.count[o := h.count[o] + 1], outside := h.outside[o := Outside(h, o) + 1]);
    SameHolders(h, u);
    assert Tidy(u);
  }

  lemma {:induction false} PyDropKeeps(kind: RegistryKind, h: Heap, w: nat, twice: bool)
    requires Inv(kind, h) && Allowed(h, PyDrop(w, twice))
    ensures After(kind, h, PyDrop(w, twice)).Some? && Inv(kind, After(kind, h, PyDrop(w, twice)).value)
  {
    if h.wrappers[w].pyrefs > 1 {
      PyRefsOnly(kind, h, After(kind, h, PyDrop(w, twice)).value, 0);
    } else {
      WrapperLetsGo(kind, h, w);
      DeallocReleasesOnce(kind, h, w, twice);
      ReleaseEndsTransit(kind, Without(kind, h, w), h.wrappers[w].obj.value);
    }
  }

  lemma {:induction false} DropRefKeeps(kind: RegistryKind, h: Heap, o: nat)
    requires Inv(kind, h) && Allowed(h, DropRef(o))
    ensures After(kind, h, DropRef(o)).Some? && Inv(kind, After(kind, h, DropRef(o)).value)
  {
    HandingOver(kind, h, o);
    ReleaseEndsTransit(kind, h.(outside := h.outside[o := h.outside[o] - 1]), o);
  }

  lemma {:induction false} HandOverKeeps(kind: RegistryKind, h: Heap, o: nat)
    requires Inv(kind, h) && Allowed(h, ReturnOwned(o))
    ensures After(kind, h, ReturnOwned(o)).Some? && Inv(kind, After(kind, h, ReturnOwned(o)).value)
  {
    HandingOver(kind, h, o);
    OwnedReturnKeeps(kind, h.(outside := h.outside[o := h.outside[o] - 1]), o);
  }

  lemma {:induction false} StepKeeps(kind: RegistryKind, h: Heap, s: Step)
    requires Inv(kind, h) && Allowed(h, s)
    ensures After(kind, h, s).Some? && Inv(kind, After(kind, h, s).value)
  {
    hide Inv, Returned, Dealloc;
    match s
    case Create(o) => CreateKeeps(kind, h, o);
    case TakeRef(o) => TakeRefKeeps(kind, h, o);
    case DropRef(o) => DropRefKeeps(kind, h, o);
    case ReturnOwned(o) => HandOverKeeps(kind, h, o);
    case ReturnShared(o) => ReturnKeeps(kind, h, o);
    case PyTake(w) => ReuseKeeps(kind, h, w, 0);
    case PyDrop(w, twice) => PyDropKeeps(kind, h, w, twice);
  }

  // ---------- Whole programs ----------

  /** The heap after a program, where every step is allowed when it comes. */
  datatype Ran = Ends(h: Heap) | Fails | NotAllowed

  function RunAll(kind: RegistryKind, h: Heap, steps: seq<Step>): Ran
    decreases |steps|
  {
    if steps == [] then Ends(h)
    else if !Allowed(h, steps[0]) then NotAllowed
    else match After(kind, h, steps[0])
      case None => Fails
      case Some(h1) => RunAll(kind, h1, steps[1..])
  }

  /** Over every program: the emitted code never touches a deleted object or a wrapper that is
      gone, and the counts stay right. */
  lemma {:induction false} ProgramsKeepCounts(kind: RegistryKind, h: Heap, steps: seq<Step>)
    requires Inv(kind, h)
    ensures RunAll(kind, h, steps) != Fails
    ensures RunAll(kind, h, steps).Ends? ==> Inv(kind, RunAll(kind, h, steps).h)
    decreases |steps|
  {
    if steps != [] && Allowed(h, steps[0]) {
      StepKeeps(kind, h, steps[0]);
      ProgramsKeepCounts(kind, After(kind, h, steps[0]).value, steps[1..]);
    }
  }

  /** The same from the empty heap: at every moment the count of a living object is the number of
      references C++ holds plus the number of wrappers holding it, with the map at most one. */
  lemma {:induction false} CountsAddUp(kind: RegistryKind, steps: seq<Step>, o: nat)
    requires RunAll(kind, EMPTY, steps).Ends?
    ensures var h := RunAll(kind, EMPTY, steps).h;
      && (o in h.count ==> h.count[o] == Outside(h, o) + |Holders(h, o)|)
      && (o in h.count <==> Outside(h, o) > 0 || Holders(h, o) != {})
      && (kind.StdMap? ==> |Holders(h, o)| <= 1)
  {
    ProgramsKeepCounts(kind, EMPTY, steps);
    var h := RunAll(kind, EMPTY, steps).h;
    if kind.StdMap? {
      if o in h.registry {
        assert Holders(h, o) <= {h.registry[o]};
        SubsetSize(Holders(h, o), {h.registry[o]});
      } else {
        assert Holders(h, o) == {};
      }
    }
    if o !in h.count { NobodyHolds(h, o); }
    if Holders(h, o) != {} { SizePositive(Holders(h, o)); }
  }

  lemma {:induction false} SizePositive(s: set<nat>)
    requires s != {}
    ensures |s| > 0
  {}

  lemma {:induction false} SubsetSize(a: set<nat>, b: set<nat>)
    requires a <= b
    ensures |a| <= |b|
  {
    assert b == a + (b - a);
  }

  /** A reference handed over is either adopted by a new wrapper, the count unchanged, or released
      at once, the count one less, because a wrapper for the object is alive. */
  lemma {:induction false} HandedOverReference(kind: RegistryKind, h: Heap, o: nat)
    requires Inv(kind, h) && Allowed(h, ReturnOwned(o))
    ensures After(kind, h, ReturnOwned(o)).Some?
    ensures var h1 := After(kind, h, ReturnOwned(o)).value;
      Outside(h1, o) == Outside(h, o) - 1 &&
      if kind.StdMap? && Holders(h, o) != {}
      then h1.wrappers.Keys == h.wrappers.Keys && h1.count == h.count[o := h.count[o] - 1]
      else h1.wrappers.Keys == h.wrappers.Keys + {h.next} && h1.wrappers[h.next].obj == Some(o) && h1.count == h.count
  {
    var u := h.(outside := h.outside[o := h.outside[o] - 1]);
    if kind.StdMap? && Holders(h, o) != {} {
      var w :| w in Holders(h, o);
      assert h.registry[o] == w;
      ReturnedKnown(u, o, true);
      SizePositive(Holders(h, o));
    } else {
      RegisteredIsHolder(kind, h, o);
      ReturnedNew(kind, u, o, true);
    }
  }

  lemma {:induction false} RegisteredIsHolder(kind: RegistryKind, h: Heap, o: nat)
    requires RegistryRight(kind, h)
    ensures kind.StdMap? && o in h.registry ==> Holders(h, o) != {}
  {
    if kind.StdMap? && o in h.registry { assert h.registry[o] in Holders(h, o); }
  }
}
