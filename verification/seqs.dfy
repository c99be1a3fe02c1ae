/** Sequence helpers standing in for the `Vec` operations the painter relies on:
    `last`, `pop`, and the reversal that relates the undo and redo stacks. */
module Seqs {

  datatype Option<T> = None | Some(value: T)

  /** `Vec::last`: the final element, if there is one. */
  function Last<T>(s: seq<T>): Option<T>
  {
    if |s| == 0 then None else Some(s[|s| - 1])
  }

  /** `Vec::pop`: splits off the final element, if there is one. */
  function Pop<T>(s: seq<T>): (r: Option<(seq<T>, T)>)
    ensures r.None? <==> |s| == 0
    ensures r.Some? ==> r.value.0 + [r.value.1] == s
  {
    if |s| == 0 then None else Some((s[..|s| - 1], s[|s| - 1]))
  }

  /** The elements of `s` in the opposite order. */
  function Reverse<T>(s: seq<T>): (r: seq<T>)
    ensures |r| == |s|
    ensures forall i :: 0 <= i < |s| ==> r[i] == s[|s| - 1 - i]
  {
    if |s| == 0 then [] else [s[|s| - 1]] + Reverse(s[..|s| - 1])
  }

  lemma ReverseConcat<T>(a: seq<T>, b: seq<T>)
    ensures Reverse(a + b) == Reverse(b) + Reverse(a)
  {
  }

  lemma ReverseReverse<T>(s: seq<T>)
    ensures Reverse(Reverse(s)) == s
  {
  }

  lemma AppendTwo<T>(s: seq<T>, x: T, y: T)
    ensures s + [x] + [y] == s + [x, y]
  {
  }
}
