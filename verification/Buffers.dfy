/**
 Growable byte buffers, and the stream buffers that write to them through a
 window of 512 bytes and read from them one buffer after the other.
 */
module Buffers {
  import opened Options

  /** The size of a pointer: the least capacity. */
  const INITIAL_SIZE: nat := 8
  const WINDOW: nat := 512

  function Min(a: nat, b: nat): nat { if a < b then a else b }
  function Max(a: nat, b: nat): nat { if a < b then b else a }

  /** The capacity chosen when `size` bytes do not fit. */
  function NextSize(size: nat): nat {
    if size < 32 then 32
    else if size < 4096 then 2 * size
    else size + size / 2
  }

  // ---------------------------------------------------------------------
  // The cost of growing.

  /** A buffer without its bytes; `moved` counts the bytes of capacity that growing relocated. */
  datatype Shape = Shape(size: nat, capacity: nat, moved: nat)

  function Resized(s: Shape, size: nat): Shape {
    if s.capacity < size then Shape(size, Max(NextSize(size), INITIAL_SIZE), s.moved + s.capacity)
    else s.(size := size)
  }

  function Total(lengths: seq<nat>): nat {
    if lengths == [] then 0 else Total(lengths[..|lengths| - 1]) + lengths[|lengths| - 1]
  }

  /** An empty buffer after appends of these lengths. */
  function Appended(lengths: seq<nat>): Shape {
    if lengths == [] then Shape(0, INITIAL_SIZE, 0)
    else
      var s := Appended(lengths[..|lengths| - 1]);
      Resized(s, s.size + lengths[|lengths| - 1])
  }

  /** What growing reserves: 32 bytes at first, then twice what is needed, and half as much again from 4096 bytes on. */
  lemma GrowthRule(s: Shape, size: nat)
    requires s.capacity < size
    ensures
      var capacity := Resized(s, size).capacity;
      && (size <= 31 ==> capacity == 32)
      && (32 <= size <= 4095 ==> capacity == size + size)
      && (4096 <= size ==> 2 * capacity <= 3 * size < 2 * capacity + 2)
  {
  }

  /** Each capacity is at least half as much again as the one before. */
  lemma GrowthIsGeometric(s: Shape, size: nat)
    requires s.capacity < size && (s.capacity == INITIAL_SIZE || s.capacity >= 32)
    ensures 3 * s.capacity <= 2 * Resized(s, size).capacity
  {
  }

  /**
   Appending n bytes in any portions relocates at most 3n bytes in all, and
   reserves at most twice as much as needed, half as much again for large n.
   */
  lemma {:induction false} AppendIsAmortized(lengths: seq<nat>)
    ensures
      var s := Appended(lengths);
      && s.size == Total(lengths) <= s.capacity
      && s.moved <= 3 * Total(lengths)
      && s.moved <= 2 * s.capacity
      && (s.capacity == 8 || s.capacity >= 32)
      && s.capacity <= Max(32, 2 * Total(lengths))
      && 2 * s.capacity <= Max(2 * 8190, 3 * Total(lengths))
  {
    if lengths != [] {
      var init := lengths[..|lengths| - 1];
      AppendIsAmortized(init);
      var s := Appended(init);
      var size := s.size + lengths[|lengths| - 1];
      if s.capacity < size {
        GrowthIsGeometric(s, size);
      }
    }
  }

  // ---------------------------------------------------------------------
  // The buffer.

  class Buffer {
    var size: nat
    var memory: array<int>
    ghost var moved: nat

    ghost predicate Valid()
      reads this
    {
      size <= memory.Length
    }

    ghost function Contents(): seq<int>
      requires Valid()
      reads this, memory
    {
      memory[..size]
    }

    ghost function Form(): Shape
      reads this
    {
      Shape(size, memory.Length, moved)
    }

    constructor ()
      ensures Valid() && fresh(memory) && Contents() == [] && Form() == Appended([]) && memory.Length == 8
    {
      size := 0;
      memory := new int[INITIAL_SIZE];
      moved := 0;
    }

    /** Reallocation: what fits is kept, and capacity is never less than the initial size. */
    method SetCapacity(requested: nat)
      requires Valid()
      modifies this
      ensures Valid() && fresh(memory) && memory.Length == Max(requested, INITIAL_SIZE)
      ensures Contents() == old(Contents())[..Min(old(size), memory.Length)]
      ensures size == Min(old(size), memory.Length) && moved == old(moved + memory.Length)
    {
      var capacity := Max(requested, INITIAL_SIZE);
      var grown := new int[capacity];
      var kept := Min(memory.Length, capacity);
      var before := memory;
      forall i | 0 <= i < kept {
        grown[i] := before[i];
      }
      moved := moved + memory.Length;
      memory := grown;
      size := Min(size, capacity);
      assert memory[..size] == before[..size];
    }

    method SetSize(newSize: nat)
      requires Valid()
      modifies this
      ensures Valid() && Form() == Resized(old(Form()), newSize)
      ensures memory == old(memory) || fresh(memory)
      ensures newSize <= old(memory.Length) ==> memory == old(memory)
      ensures memory[..Min(old(size), newSize)] == old(Contents())[..Min(old(size), newSize)]
    {
      if memory.Length < newSize {
        SetCapacity(NextSize(newSize));
        assert memory[..size] == old(Contents());
      }
      size := newSize;
    }

    method Append(data: seq<int>)
      requires Valid()
      modifies this, memory
      ensures Valid() && Contents() == old(Contents()) + data
      ensures memory == old(memory) || fresh(memory)
      ensures Form() == Resized(old(Form()), old(size) + |data|)
    {
      var before := size;
      SetSize(size + |data|);
      var target := memory;
      ghost var kept := target[..before];
      assert kept == old(Contents());
      for i := 0 to |data|
        invariant memory == target && size == before + |data| && Form() == Resized(old(Form()), old(size) + |data|)
        invariant target[..before] == kept && target[before..before + i] == data[..i]
      {
        target[before + i] := data[i];
      }
      assert target[..size] == target[..before] + target[before..before + |data|];
    }

    /** Moves the rest to the front, in place. */
    method PopFront(n: nat)
      requires Valid() && n <= size
      modifies this`size, memory
      ensures Valid() && Contents() == old(Contents())[n..]
    {
      var rest := size - n;
      for i := 0 to rest
        invariant size == old(size)
        invariant forall k :: 0 <= k < i ==> memory[k] == old(memory[k + n])
        invariant forall k :: i <= k < memory.Length ==> memory[k] == old(memory[k])
      {
        memory[i] := memory[i + n];
      }
      size := rest;
    }
  }

  // ---------------------------------------------------------------------
  // Writing through a window.

  datatype Op = Put(byte: int) | Flush

  /** The bytes that a sequence of operations puts. */
  function BytesOf(ops: seq<Op>): seq<int> {
    if ops == [] then []
    else BytesOf(ops[..|ops| - 1]) + (match ops[|ops| - 1] case Put(b) => [b] case Flush => [])
  }

  class OutputStreamBuffer {
    const buffer: Buffer
    /** The size of the buffer when the window was opened: the window starts there. */
    var flushed: nat
    /** The room of the window, none when it is closed, and how much of it is used. */
    var room: nat
    var pending: nat

    ghost predicate Valid()
      reads this, buffer
    {
      && buffer.Valid()
      && flushed == buffer.size
      && pending <= room
      && flushed + room <= buffer.memory.Length
    }

    /** All that was written, flushed or not. */
    ghost function Written(): seq<int>
      requires Valid()
      reads this, buffer, buffer.memory
    {
      buffer.memory[..flushed + pending]
    }

    constructor (buffer: Buffer)
      requires buffer.Valid()
      ensures this.buffer == buffer && Valid() && Written() == buffer.Contents()
    {
      this.buffer := buffer;
      flushed, room, pending := buffer.size, 0, 0;
    }

    method Sync()
      requires Valid()
      modifies this, buffer
      ensures Valid() && room == 0 && pending == 0 && buffer.memory == old(buffer.memory)
      ensures Written() == buffer.Contents() == old(Written())
    {
      var n := pending;
      room, pending := 0, 0;
      if n > 0 {
        flushed := flushed + n;
        buffer.SetSize(flushed);
      }
    }

    method Overflow(c: int)
      requires Valid()
      modifies this, buffer, buffer.memory
      ensures Valid() && Written() == old(Written()) + [c]
      ensures room == 512 && pending == 1 && buffer.memory.Length == buffer.size + 512
      ensures fresh(buffer.memory)
    {
      Sync();
      buffer.SetCapacity(flushed + WINDOW);
      assert buffer.memory[..flushed] == old(Written());
      room := WINDOW;
      buffer.memory[flushed] := c;
      pending := 1;
      assert buffer.memory[..flushed + 1] == buffer.memory[..flushed] + [c];
    }

    method PutByte(c: int)
      requires Valid()
      modifies this, buffer, buffer.memory
      ensures Valid() && Written() == old(Written()) + [c]
      ensures buffer.memory == old(buffer.memory) || fresh(buffer.memory)
    {
      if pending < room {
        buffer.memory[flushed + pending] := c;
        pending := pending + 1;
        assert buffer.memory[..flushed + pending] == buffer.memory[..flushed + pending - 1] + [c];
      } else {
        Overflow(c);
      }
    }

    /** Any mix of bytes and flushes, and a final flush, appends exactly the bytes. */
    method Run(ops: seq<Op>)
      requires Valid()
      modifies this, buffer, buffer.memory
      ensures Valid() && buffer.Contents() == old(Written()) + BytesOf(ops)
      ensures buffer.memory == old(buffer.memory) || fresh(buffer.memory)
    {
      assert old(Written()) + BytesOf([]) == Written();
      for i := 0 to |ops|
        invariant Valid() && (buffer.memory == old(buffer.memory) || fresh(buffer.memory))
        invariant Written() == old(Written()) + BytesOf(ops[..i])
      {
        assert ops[..i + 1][..i] == ops[..i];
        if ops[i].Put? {
          PutByte(ops[i].byte);
        } else {
          Sync();
          assert BytesOf(ops[..i + 1]) == BytesOf(ops[..i]);
        }
      }
      assert ops[..|ops|] == ops;
      Sync();
    }
  }

  // ---------------------------------------------------------------------
  // Reading several buffers.

  function Concat(buffers: seq<seq<int>>): seq<int> {
    if buffers == [] then [] else buffers[0] + Concat(buffers[1..])
  }

  /** The bytes up to the first end of file: an empty buffer reports one. */
  function Readable(buffers: seq<seq<int>>): seq<int> {
    if buffers == [] || buffers[0] == [] then [] else buffers[0] + Readable(buffers[1..])
  }

  /** A buffer with bytes comes after an empty one. */
  predicate Hidden(buffers: seq<seq<int>>) {
    exists i, j :: 0 <= i < j < |buffers| && buffers[i] == [] && buffers[j] != []
  }

  lemma {:induction false} AllEmpty(buffers: seq<seq<int>>)
    ensures Concat(buffers) == [] <==> forall i :: 0 <= i < |buffers| ==> buffers[i] == []
  {
    if buffers != [] {
      AllEmpty(buffers[1..]);
      assert forall i :: 1 <= i < |buffers| ==> buffers[i] == buffers[1..][i - 1];
    }
  }

  /** Reading to the end of file yields all the bytes exactly when no empty buffer hides later bytes. */
  lemma {:induction false} ReadableExactly(buffers: seq<seq<int>>)
    ensures Readable(buffers) == Concat(buffers) <==> !Hidden(buffers)
  {
    if buffers == [] {
    } else if buffers[0] == [] {
      AllEmpty(buffers);
    } else {
      var rest := buffers[1..];
      ReadableExactly(rest);
      assert Readable(buffers) == Concat(buffers) <==> Readable(rest) == Concat(rest) by {
        assert Readable(rest) == Readable(buffers)[|buffers[0]|..];
        assert Concat(rest) == Concat(buffers)[|buffers[0]|..];
      }
      assert Hidden(buffers) <==> Hidden(rest) by {
        assert forall i :: 1 <= i < |buffers| ==> buffers[i] == rest[i - 1];
        if Hidden(rest) {
          var i, j :| 0 <= i < j < |rest| && rest[i] == [] && rest[j] != [];
          assert buffers[i + 1] == [] && buffers[j + 1] != [];
        }
      }
    }
  }

  class InputStreamBuffer {
    var buffers: seq<seq<int>>
    var pos: nat
    /** What is left of the buffer being read. */
    var area: seq<int>

    ghost predicate Valid()
      reads this
    {
      pos <= |buffers|
    }

    /** What will be read before the next end of file. */
    ghost function Ahead(): seq<int>
      requires Valid()
      reads this
    {
      area + Readable(buffers[pos..])
    }

    constructor (buffers: seq<seq<int>>)
      ensures Valid() && Ahead() == Readable(buffers)
    {
      this.buffers := buffers;
      pos, area := 0, [];
    }

    method ReadBuffer() returns (b: seq<int>)
      requires Valid()
      modifies this`pos
      ensures Valid()
      ensures if old(pos) < |buffers| then b == buffers[old(pos)] && pos == old(pos) + 1 else b == [] && pos == old(pos)
    {
      if pos < |buffers| {
        pos := pos + 1;
        b := buffers[pos - 1];
      } else {
        b := [];
      }
    }

    /** The next byte, or end of file. */
    method GetByte() returns (r: Option<int>)
      requires Valid()
      modifies this`pos, this`area
      ensures Valid()
      ensures r == if old(Ahead()) == [] then None else Some(old(Ahead())[0])
      ensures r.Some? ==> Ahead() == old(Ahead())[1..]
    {
      if area == [] {
        var b := ReadBuffer();
        area := b;
        if b == [] {
          return None;
        }
        assert old(buffers[pos..])[0] == b && old(buffers[pos..])[1..] == buffers[pos..];
      }
      r := Some(area[0]);
      area := area[1..];
    }

    method ReadAll() returns (bytes: seq<int>)
      requires Valid()
      modifies this`pos, this`area
      ensures Valid() && bytes == old(Ahead())
    {
      bytes := [];
      while true
        invariant Valid() && old(Ahead()) == bytes + Ahead()
        decreases |Ahead()|
      {
        var r := GetByte();
        if r.None? {
          return;
        }
        bytes := bytes + [r.value];
      }
    }
  }

  /** What is written through one stream is read back through the other, after what was there. */
  method WriteThenRead(buffer: Buffer, ops: seq<Op>) returns (bytes: seq<int>)
    requires buffer.Valid()
    modifies buffer, buffer.memory
    ensures buffer.Valid() && bytes == buffer.Contents() == old(buffer.Contents()) + BytesOf(ops)
  {
    var output := new OutputStreamBuffer(buffer);
    output.Run(ops);
    var input := new InputStreamBuffer([buffer.memory[..buffer.size]]);
    assert [buffer.memory[..buffer.size]][1..] == [];
    bytes := input.ReadAll();
  }
}
