// Option and Result: the absent values and error returns of the modelled code.
module Wrappers {
  datatype Option<T> = None | Some(value: T)

  datatype Result<T, E> = Ok(value: T) | Err(error: E)
}

// Order-preserving selection from a list, the shape every `filter` in the code has.
module Sequences {
  /** `s` is `t` with some elements left out and the rest kept in order. */
  predicate Subsequence<T(==)>(s: seq<T>, t: seq<T>)
    decreases |t|
  {
    if s == [] then true
    else if t == [] then false
    else if s[0] == t[0] then Subsequence(s[1..], t[1..])
    else Subsequence(s, t[1..])
  }

  /** Dropping the head of the longer list keeps a subsequence of its tail a subsequence. */
  lemma SubsequenceSkip<T>(s: seq<T>, t: seq<T>)
    requires t != [] && Subsequence(s, t[1..])
    ensures Subsequence(s, t)
    decreases |t|, 0
  {
    if s != [] && s[0] == t[0] {
      SubsequenceTail(s, t[1..]);
    }
  }

  /** A subsequence without its first element is still a subsequence. */
  lemma SubsequenceTail<T>(s: seq<T>, t: seq<T>)
    requires s != [] && Subsequence(s, t)
    ensures Subsequence(s[1..], t)
    decreases |t|, 1
  {
    if s[0] == t[0] {
      if t[1..] != [] {
        SubsequenceSkip(s[1..], t);
      } else {
        assert s[1..] == [];
      }
    } else {
      SubsequenceTail(s, t[1..]);
      SubsequenceSkip(s[1..], t);
    }
  }
}
