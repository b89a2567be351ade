/** Facts about sequences that the proofs of several modules share. */
module Seqs {

  /** Concatenation is associative. */
  lemma ConcatAssociates<T>(a: seq<T>, b: seq<T>, c: seq<T>)
    ensures a + (b + c) == (a + b) + c
  {
  }

  /** A head followed by a tail that splits as x + y is the head followed by x, then y. */
  lemma ConsSplit<T>(whole: seq<T>, head: seq<T>, tail: seq<T>, front: seq<T>, x: seq<T>, y: seq<T>)
    requires whole == head + tail && tail == x + y && front == head + x
    ensures whole == front + y
  {
    ConcatAssociates(head, x, y);
  }

  /** Putting m between front and a suffix x + rest is the same as appending [m] + [x] + rest to front. */
  lemma InsertBefore<T>(whole: seq<T>, front: seq<T>, mid: seq<T>, m: T, x: T, rest: seq<T>, suffix: seq<T>)
    requires whole == front + mid && mid == ([m] + [x]) + rest && suffix == [x] + rest
    ensures whole == front + [m] + suffix
  {
    ConcatAssociates([m], [x], rest);
    ConcatAssociates(front, [m], suffix);
  }
}
