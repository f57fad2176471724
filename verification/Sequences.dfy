/**
 * Occurrences in sequences, and how concatenations come apart.
 */
module Sequences {

  lemma HeadCount<T>(s: seq<T>, x: T)
    requires s != []
    ensures multiset(s)[x] == multiset(s[1..])[x] + if s[0] == x then 1 else 0
  {
    assert s == [s[0]] + s[1..];
  }

  lemma {:induction false} DistinctCount<T>(s: seq<T>, x: T)
    requires forall j, k :: 0 <= j < k < |s| ==> s[j] != s[k]
    ensures multiset(s)[x] == if x in s then 1 else 0
  {
    if s != [] {
      DistinctCount(s[1..], x);
      HeadCount(s, x);
      assert s[0] !in s[1..];
    }
  }

  lemma ConcatAssoc<T>(x: seq<T>, y: seq<T>, z: seq<T>)
    ensures x + (y + z) == (x + y) + z
  {
  }

  lemma ConcatTail<T>(a: seq<T>, b: seq<T>)
    requires a != []
    ensures (a + b)[0] == a[0] && (a + b)[1..] == a[1..] + b
  {
  }

  /** Where the end of mid, and rest, lie in a sequence that holds hdr + mid + rest from p to endp. */
  lemma PartsAt<T>(s: seq<T>, p: nat, endp: nat, hdr: seq<T>, mid: seq<T>, rest: seq<T>, k: nat, at: nat, next: nat, tail: seq<T>)
    requires p <= endp <= |s| && s[p..endp] == hdr + mid + rest
    requires k <= |mid| && tail == mid[k..] && at == p + |hdr| + k && next == p + |hdr| + |mid|
    ensures at <= next <= endp && s[at..next] == tail && s[next..endp] == rest
  {
    var whole := hdr + mid + rest;
    assert |s[p..endp]| == |whole|;
    forall j | 0 <= j < |tail| ensures s[at + j] == tail[j] {
      assert s[at + j] == s[p..endp][|hdr| + k + j] == whole[|hdr| + k + j] == mid[k + j];
    }
    forall j | 0 <= j < |rest| ensures s[next + j] == rest[j] {
      assert s[next + j] == s[p..endp][|hdr| + |mid| + j] == whole[|hdr| + |mid| + j];
    }
  }

  /** What has gone into a queue is what has come out, followed by what is in it. */
  lemma ThroughQueue<T>(into: seq<T>, out: seq<T>, q: seq<T>, put: seq<T>, got: seq<T>, r: seq<T>)
    requires into == out + q && got + r == q + put
    ensures into + put == (out + got) + r
  {
    assert into + put == out + (q + put) == out + (got + r);
  }

  /** Equal concatenations with first parts of equal length have equal parts. */
  lemma SplitEqual<T>(a: seq<T>, b: seq<T>, c: seq<T>, d: seq<T>)
    requires a + b == c + d && |a| == |c|
    ensures a == c && b == d
  {
    assert a == (a + b)[..|a|] && c == (c + d)[..|c|];
    assert b == (a + b)[|a|..] && d == (c + d)[|c|..];
  }
}
