/** What several of the modules use. */
module Common {

  datatype Option<+T> = None | Some(value: T)

  datatype Result<+T> = Ok(value: T) | Err(message: string)

  /** The lower-case form of an ASCII letter. */
  function Lower(c: char): char {
    if 'A' <= c <= 'Z' then (c as int + 32) as char else c
  }

  lemma Regroup<T>(a: seq<T>, b: seq<T>, c: seq<T>)
    ensures a + (b + c) == (a + b) + c
  {
  }

  function Sum(counts: seq<nat>): nat {
    if counts == [] then 0 else Sum(counts[..|counts| - 1]) + counts[|counts| - 1]
  }

  /** Changing one count changes the sum by as much. */
  lemma {:induction false} SumChanges(a: seq<nat>, b: seq<nat>, t: nat)
    requires |a| == |b| && t < |a| && forall u :: 0 <= u < |a| && u != t ==> a[u] == b[u]
    ensures Sum(b) + a[t] == Sum(a) + b[t]
  {
    var last := |a| - 1;
    if t == last {
      assert a[..last] == b[..last];
    } else {
      SumChanges(a[..last], b[..last], t);
    }
  }
}
