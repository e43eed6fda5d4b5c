/**
 * The bounded stack that DEFINE_STACK generates,
 * include/yobd_private/stack.h.
 *
 * The C stack keeps two pointers into a caller-supplied buffer: `bottom`,
 * the start of the buffer, and `top`, one past the last item. Here the
 * buffer is an array and `top` is the index of the first free slot, so the
 * bottom is index 0 and the size is `top - 0`. Push and pop keep their
 * assertions (size below capacity, size above zero) as preconditions.
 */
module Stacks {

  class Stack<T> {
    /** The caller's buffer; the bottom of the stack is its first element. */
    const buf: array<T>
    /** The capacity given to init. */
    const maxSize: nat
    /** The index one past the top item. */
    var top: nat

    ghost predicate Valid()
      reads this
    {
      maxSize <= buf.Length && top <= maxSize
    }

    /** The items from bottom to top. */
    ghost function Contents(): seq<T>
      reads this, buf
      requires Valid()
    {
      buf[..top]
    }

    /** init: an empty stack over `data` with room for `maxSize` items. */
    constructor Init(data: array<T>, maxSize: nat)
      requires maxSize <= data.Length
      ensures Valid()
      ensures buf == data && this.maxSize == maxSize
      ensures top == 0 && Contents() == []
    {
      buf := data;
      this.maxSize := maxSize;
      top := 0;
    }

    /** size: the number of items, top minus bottom. */
    function Size(): (n: nat)
      reads this
      requires Valid()
      ensures n <= maxSize
      ensures n == |Contents()|
    {
      top
    }

    /** max_size: the capacity given to init. */
    function MaxSize(): (n: nat)
      reads this
      ensures n == maxSize
    {
      maxSize
    }

    /** data: the bottom of the stack, i.e. the start of the caller's buffer. */
    function Data(): (a: array<T>)
      reads this
      requires Valid()
      ensures a == buf
      ensures a.Length >= maxSize
    {
      buf
    }

    /**
     * push: copy `item` to the top. The items below are left as they were
     * and the size grows by one.
     */
    method Push(item: T)
      requires Valid()
      requires Size() < MaxSize()
      modifies this, buf
      ensures Valid()
      ensures top == old(top) + 1
      ensures Contents() == old(Contents()) + [item]
      ensures forall i :: 0 <= i < old(top) ==> buf[i] == old(buf[i])
      ensures forall i :: top <= i < buf.Length ==> buf[i] == old(buf[i])
    {
      buf[top] := item;
      top := top + 1;
    }

    /** pop: remove the most recently pushed item and return it. */
    method Pop() returns (item: T)
      requires Valid()
      requires Size() > 0
      modifies this
      ensures Valid()
      ensures top == old(top) - 1
      ensures item == old(Contents())[|old(Contents())| - 1]
      ensures Contents() == old(Contents())[..|old(Contents())| - 1]
    {
      top := top - 1;
      item := buf[top];
    }

    /**
     * peek: -1 on an empty stack, leaving the caller's variable (`current`)
     * as it was; otherwise 0 and the top item. The stack is not changed.
     */
    method Peek(current: T) returns (ret: int, item: T)
      requires Valid()
      ensures ret == -1 <==> Contents() == []
      ensures ret == 0 <==> Contents() != []
      ensures ret == -1 ==> item == current
      ensures ret == 0 ==> item == Contents()[|Contents()| - 1]
    {
      if top == 0 {
        ret, item := -1, current;
        return;
      }
      ret := 0;
      item := buf[top - 1];
    }
  }

  /** A client: what push then pop promise together (LIFO). */
  method PushPopRestores<T>(s: Stack<T>, x: T) returns (y: T)
    requires s.Valid() && s.Size() < s.MaxSize()
    modifies s, s.buf
    ensures s.Valid()
    ensures y == x
    ensures s.Contents() == old(s.Contents())
  {
    s.Push(x);
    y := s.Pop();
  }
}
