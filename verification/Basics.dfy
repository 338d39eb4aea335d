/** Shared vocabulary: optional values and byte strings. */
module Basics {

  datatype Option<+T> = None | Some(value: T)

  newtype Byte = x: int | 0 <= x < 256

  type Bytes = seq<Byte>

  function Take<T>(s: seq<T>, n: int): seq<T> {
    if n <= 0 then [] else if n <= |s| then s[..n] else s
  }

  function Drop<T>(s: seq<T>, n: int): seq<T> {
    if n <= 0 then s else if n <= |s| then s[n..] else []
  }

  /** A name a stump may have: one path element, not hidden. */
  predicate StumpName(name: string) {
    name != "" && name[0] != '.' && '/' !in name && '\\' !in name
  }

  lemma {:induction false} SubsetSize<T>(a: set<T>, b: set<T>)
    requires a <= b
    ensures |a| <= |b|
  {
    if a != {} {
      var x :| x in a;
      SubsetSize(a - {x}, b - {x});
    }
  }
}
