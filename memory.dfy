// The interpreter's memory: activation records, one per running program or
// function call, each a dictionary from names to values, kept on a call
// stack whose top record is the only one a visit reads or writes.
//
// `Frame` and the `Stack*` functions are the value view of a record and of
// the stack; the classes are the objects the interpreter mutates, and their
// methods are proved against the value view.
module Memory {
  import opened Wrappers
  import opened Values

  datatype RecordKind = ProgramRecord | FunctionRecord

  /** A record as a value: its name, kind and nesting level, fixed at
      construction, and its members. */
  datatype Frame = Frame(name: string, kind: RecordKind, level: nat, members: map<string, Value>)

  /** The indexer's write: adds the key if absent, overwrites it if present. */
  function FrameSet(f: Frame, key: string, v: Value): (r: Frame)
    ensures r.name == f.name && r.kind == f.kind && r.level == f.level
    ensures key in r.members && r.members[key] == v
    ensures r.members.Keys == f.members.Keys + {key}
    ensures forall k :: k in f.members && k != key ==> r.members[k] == f.members[k]
  {
    f.(members := f.members[key := v])
  }

  /** The indexer's read: a missing key is an error. */
  function FrameAt(f: Frame, key: string): (r: Result<Value, RuntimeError>)
    ensures r.Success? <==> key in f.members
    ensures r.Success? ==> r.value == f.members[key]
    ensures r.Failure? ==> r.error == KeyNotFound(key)
  {
    if key in f.members then Success(f.members[key]) else Failure(KeyNotFound(key))
  }

  /** `Get`: a missing key reads as null. */
  function FrameGet(f: Frame, key: string): (r: Value)
    ensures key !in f.members ==> r == Null
    ensures key in f.members ==> r == f.members[key]
  {
    if key in f.members then f.members[key] else Null
  }

  /** After a write, the key reads back the value written, through both
      reads, and every other key reads as before. */
  lemma SetThenRead(f: Frame, key: string, v: Value, other: string)
    requires other != key
    ensures FrameAt(FrameSet(f, key, v), key) == Success(v)
    ensures FrameGet(FrameSet(f, key, v), key) == v
    ensures FrameAt(FrameSet(f, key, v), other) == FrameAt(f, other)
    ensures FrameGet(FrameSet(f, key, v), other) == FrameGet(f, other)
  {
  }

  /** A second write to the same key replaces the first. */
  lemma SetOverwrites(f: Frame, key: string, v: Value, w: Value)
    ensures FrameSet(FrameSet(f, key, v), key, w) == FrameSet(f, key, w)
  {
  }

  /** `Get` agrees with the indexer where the indexer succeeds, and reads
      null where it fails. */
  lemma GetAgreesWithAt(f: Frame, key: string)
    ensures FrameAt(f, key).Success? ==> FrameGet(f, key) == FrameAt(f, key).value
    ensures FrameAt(f, key).Failure? ==> FrameGet(f, key) == Null
  {
  }

  // ---------------------------------------------------------------------
  // The stack as a value: the top is the last element.

  function StackTop(s: seq<Frame>): (r: Result<Frame, RuntimeError>)
    ensures r.Success? <==> |s| > 0
    ensures r.Success? ==> r.value == s[|s| - 1]
    ensures r.Failure? ==> r.error == EmptyStack
  {
    if s == [] then Failure(EmptyStack) else Success(s[|s| - 1])
  }

  function StackPush(s: seq<Frame>, f: Frame): (r: seq<Frame>)
    ensures |r| == |s| + 1
  {
    s + [f]
  }

  function StackPop(s: seq<Frame>): (r: Result<(Frame, seq<Frame>), RuntimeError>)
    ensures r.Success? <==> |s| > 0
    ensures r.Success? ==> r.value.1 + [r.value.0] == s
    ensures r.Failure? ==> r.error == EmptyStack
  {
    if s == [] then Failure(EmptyStack) else Success((s[|s| - 1], s[..|s| - 1]))
  }

  /** A write into the top record. */
  function StackSetTop(s: seq<Frame>, key: string, v: Value): (r: Result<seq<Frame>, RuntimeError>)
    ensures r.Success? <==> |s| > 0
    ensures r.Success? ==> |r.value| == |s| && r.value[..|s| - 1] == s[..|s| - 1]
    ensures r.Success? ==> r.value[|s| - 1] == FrameSet(s[|s| - 1], key, v)
    ensures r.Failure? ==> r.error == EmptyStack
  {
    if s == [] then Failure(EmptyStack) else Success(s[|s| - 1 := FrameSet(s[|s| - 1], key, v)])
  }

  /** A pushed record is the top, and popping it gives it back and restores
      the stack beneath. */
  lemma PushThenTopAndPop(s: seq<Frame>, f: Frame)
    ensures StackTop(StackPush(s, f)) == Success(f)
    ensures StackPop(StackPush(s, f)) == Success((f, s))
  {
    assert (s + [f])[..|s|] == s;
  }

  /** Popping and pushing back what was popped restores the stack. */
  lemma PopThenPush(s: seq<Frame>)
    requires |s| > 0
    ensures StackPush(StackPop(s).value.1, StackPop(s).value.0) == s
  {
  }

  // ---------------------------------------------------------------------
  // The objects

  class ActivationRecord {
    const name: string
    const kind: RecordKind
    const level: nat
    var members: map<string, Value>

    /** The record as a value. */
    function Snapshot(): Frame
      reads this
    {
      Frame(name, kind, level, members)
    }

    constructor (recordName: string, recordKind: RecordKind, recordLevel: nat)
      ensures Snapshot() == Frame(recordName, recordKind, recordLevel, map[])
    {
      name, kind, level := recordName, recordKind, recordLevel;
      members := map[];
    }

    /** The indexer's setter. */
    method Set(key: string, v: Value)
      modifies this
      ensures Snapshot() == FrameSet(old(Snapshot()), key, v)
    {
      if key !in members {
        members := members[key := Null];
      }
      members := members[key := v];
    }

    /** The indexer's getter. */
    function At(key: string): (r: Result<Value, RuntimeError>)
      reads this
      ensures r == FrameAt(Snapshot(), key)
    {
      if key in members then Success(members[key]) else Failure(KeyNotFound(key))
    }

    function Get(key: string): (r: Value)
      reads this
      ensures r == FrameGet(Snapshot(), key)
    {
      if key in members then members[key] else Null
    }
  }

  /** The call stack. The source keeps references to the record objects;
      the model keeps their contents. Once a record is pushed nothing else
      refers to it, so every write through `Top` lands in the top entry,
      which is what `SetTop` does. */
  class CallStack {
    /** The records from the bottom up; the top is the last. */
    var frames: seq<Frame>

    constructor ()
      ensures frames == []
    {
      frames := [];
    }

    /** `Top`: the last record pushed; the stack must not be empty. */
    function Top(): (r: Result<Frame, RuntimeError>)
      reads this
      ensures r == StackTop(frames)
    {
      if frames == [] then Failure(EmptyStack) else Success(frames[|frames| - 1])
    }

    method Push(record: ActivationRecord)
      modifies this
      ensures frames == StackPush(old(frames), record.Snapshot())
    {
      frames := frames + [record.Snapshot()];
    }

    method Pop() returns (r: Result<Frame, RuntimeError>)
      modifies this
      ensures old(frames) == [] ==> r == Failure(EmptyStack) && frames == []
      ensures old(frames) != [] ==> r == Success(StackPop(old(frames)).value.0) && frames == StackPop(old(frames)).value.1
    {
      if frames == [] {
        r := Failure(EmptyStack);
      } else {
        r := Success(frames[|frames| - 1]);
        frames := frames[..|frames| - 1];
      }
    }

    /** `Top[key] = v`: the indexer's write into the top record. */
    method SetTop(key: string, v: Value) returns (r: Result<(), RuntimeError>)
      modifies this
      ensures StackSetTop(old(frames), key, v).Success? ==> r.Success? && frames == StackSetTop(old(frames), key, v).value
      ensures StackSetTop(old(frames), key, v).Failure? ==> r == Failure(EmptyStack) && frames == old(frames)
    {
      if frames == [] {
        return Failure(EmptyStack);
      }
      var top := frames[|frames| - 1];
      frames := frames[|frames| - 1 := FrameSet(top, key, v)];
      r := Success(());
    }
  }
}
