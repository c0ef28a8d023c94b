/** Shared vocabulary of the mirror: optional values, bytes, local paths and the local filesystem, and two facts about sequences. */
module Base {

  datatype Option<+T> = None | Some(value: T)

  newtype byte = x: int | 0 <= x < 256

  type Bytes = seq<byte>

  /** A local filesystem path, as the sequence of its components. */
  type Path = seq<string>

  /** The local filesystem: the content of every regular file, by path. */
  type LocalFs = map<Path, Bytes>

  /** Concatenation of sequences is associative. */
  lemma Assoc<T>(a: seq<T>, b: seq<T>, c: seq<T>)
    ensures a + (b + c) == (a + b) + c
  {
  }

  /** A concatenation of five parts, regrouped: the single element joins the part before it. */
  lemma Regroup<T>(a: seq<T>, b: T, c: seq<T>, d: seq<T>, e: seq<T>)
    ensures a + (([b] + c + d) + e) == (a + [b]) + c + (d + e)
  {
  }
}
