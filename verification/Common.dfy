// Small things every part of the model uses.
module Common {

  datatype Option<+T> = None | Some(value: T)

  function Least(a: nat, b: nat): nat {
    if a < b then a else b
  }

  lemma Regroup<T>(a: seq<T>, b: seq<T>, c: seq<T>)
    ensures a + b + c == a + (b + c)
  {
  }
}
