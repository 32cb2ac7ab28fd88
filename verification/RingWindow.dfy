/** The samples a wrapped ring holds, read from its head, as a sequence. */
module RingWindow {
  function Wrapped(index: nat, length: nat): (r: nat)
    requires index < 2 * length
    ensures r < length
  {
    if index < length then index else index - length
  }

  lemma {:induction false} WrappedIsMod(index: nat, length: nat)
    requires index < 2 * length
    ensures index % length == Wrapped(index, length)
  {
    if length <= index {
      assert index == (index - length) + 1 * length;
      assert index / length == 1;
    } else {
      assert index / length == 0;
    }
  }

  function Window<T>(cells: seq<T>, head: nat, size: nat): (s: seq<T>)
    requires head < |cells| && size <= |cells|
    ensures |s| == size
    ensures forall i :: 0 <= i < size ==> s[i] == cells[Wrapped(head + i, |cells|)]
  {
    seq(size, i requires 0 <= i < size => cells[Wrapped(head + i, |cells|)])
  }

  lemma {:induction false} WindowDropsHead<T>(cells: seq<T>, head: nat, size: nat)
    requires head < |cells| && 0 < size <= |cells|
    ensures Window(cells, head, size)
         == [cells[head]] + Window(cells, Wrapped(head + 1, |cells|), size - 1)
  {
    var next := Window(cells, Wrapped(head + 1, |cells|), size - 1);
    forall i | 0 <= i < size - 1
      ensures next[i] == Window(cells, head, size)[i + 1]
    {
    }
  }

  lemma {:induction false} WindowGrows<T>(cells: seq<T>, head: nat, size: nat, item: T)
    requires head < |cells| && size < |cells|
    ensures Window(cells[Wrapped(head + size, |cells|) := item], head, size + 1)
         == Window(cells, head, size) + [item]
  {
  }
}
