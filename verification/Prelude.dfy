/** Small value types shared by the whole model, and counting over sequences. */
module Prelude {

  datatype Option<+T> = None | Some(value: T)

  datatype Result<+T, +E> = Ok(value: T) | Err(error: E)

  /** How a command to a server ends: done, never arrived, or done with the reply lost. */
  datatype Delivery = Delivered | RequestLost | ReplyLost

  /** The number of elements of `s` that satisfy `p`. */
  ghost function Count<T>(s: seq<T>, p: T -> bool): nat {
    if s == [] then 0
    else Count(s[..|s| - 1], p) + One(p(s[|s| - 1]))
  }

  /** 1 for true, 0 for false. */
  function One(b: bool): nat {
    if b then 1 else 0
  }

  lemma CountPush<T>(s: seq<T>, x: T, p: T -> bool)
    ensures Count(s + [x], p) == Count(s, p) + One(p(x))
  {
    assert (s + [x])[..|s|] == s;
  }

  lemma {:induction false} CountUpdate<T>(s: seq<T>, i: nat, x: T, p: T -> bool)
    requires i < |s|
    ensures Count(s[i := x], p) + One(p(s[i])) == Count(s, p) + One(p(x))
  {
    var last := |s| - 1;
    if i == last {
      assert s[i := x][..last] == s[..last];
    } else {
      assert s[i := x][..last] == s[..last][i := x];
      CountUpdate(s[..last], i, x, p);
    }
  }

  lemma {:induction false} CountPositive<T>(s: seq<T>, i: nat, p: T -> bool)
    requires i < |s| && p(s[i])
    ensures Count(s, p) >= 1
  {
    if i < |s| - 1 {
      CountPositive(s[..|s| - 1], i, p);
    }
  }

  lemma {:induction false} CountSome<T>(s: seq<T>, p: T -> bool) returns (i: nat)
    requires Count(s, p) >= 1
    ensures i < |s| && p(s[i])
  {
    var last := |s| - 1;
    if p(s[last]) {
      i := last;
    } else {
      i := CountSome(s[..last], p);
    }
  }

  /** Two positions that satisfy a predicate counted at most once are the same position. */
  lemma {:induction false} CountUnique<T>(s: seq<T>, i: nat, k: nat, p: T -> bool)
    requires i < |s| && k < |s| && p(s[i]) && p(s[k])
    requires Count(s, p) <= 1
    ensures i == k
  {
    var last := |s| - 1;
    if i < last && k < last {
      CountUnique(s[..last], i, k, p);
    } else if i < last {
      CountPositive(s[..last], i, p);
    } else if k < last {
      CountPositive(s[..last], k, p);
    }
  }

  lemma Associative<T>(a: seq<T>, b: seq<T>, c: seq<T>)
    ensures a + (b + c) == (a + b) + c
  {
  }

  lemma DropConcat<T>(a: seq<T>, b: seq<T>, k: nat)
    requires k <= |a|
    ensures (a + b)[..k] == a[..k] && (a + b)[k..] == a[k..] + b
  {
  }

  lemma SplitLast<T>(a: seq<T>, s: seq<T>) returns (before: seq<T>, last: T)
    requires s != []
    ensures s == before + [last] && a + s == a + before + [last] && |before| == |s| - 1
  {
    before, last := s[..|s| - 1], s[|s| - 1];
  }
}

/** nscale-core/src/job.rs: the values the control plane passes around. */
module Jobs {
  datatype Endpoint = Endpoint(host: string, port: nat)

  datatype JobRegistration = JobRegistration(jobId: string, serviceName: string, nomadGroup: string)
}
