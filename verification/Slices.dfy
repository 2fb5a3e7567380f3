/** Go's slices: a view of the first `n` entries of an array that other views may share. */
module Slices {
  // append(s[:n], xs...): in place while there is room, otherwise into a larger copy.
  method Append<T>(s: array<T>, n: nat, xs: seq<T>) returns (t: array<T>)
    requires n <= s.Length && |xs| > 0
    modifies s
    ensures t == s || fresh(t)
    ensures n + |xs| <= t.Length && t[..n + |xs|] == old(s[..n]) + xs && s[..n] == old(s[..n])
  {
    t := s;
    if n + |xs| > s.Length {
      t := Copy(s, n, 2 * n + |xs|, xs[0]);
    }
    Write(t, n, xs);
    assert t[..n + |xs|] == t[..n] + t[n..n + |xs|];
  }

  // A larger array with the same first entries.
  method Copy<T>(s: array<T>, n: nat, size: nat, fill: T) returns (t: array<T>)
    requires n <= s.Length && n <= size
    ensures fresh(t) && t.Length == size && t[..n] == s[..n]
  {
    t := new T[size](_ => fill);
    for i := 0 to n
      invariant t[..i] == s[..i]
    {
      t[i] := s[i];
    }
  }

  method Write<T>(t: array<T>, n: nat, xs: seq<T>)
    requires n + |xs| <= t.Length
    modifies t
    ensures t[..n] == old(t[..n]) && t[n..n + |xs|] == xs
  {
    for i := 0 to |xs|
      invariant t[..n] == old(t[..n]) && t[n..n + i] == xs[..i]
    {
      t[n + i] := xs[i];
    }
  }

  // slices.Clone
  method Clone<T>(s: array<T>, n: nat) returns (t: array<T>)
    requires n <= s.Length
    ensures fresh(t) && t.Length == n && t[..n] == s[..n]
  {
    t := new T[n](i requires 0 <= i < n && n <= s.Length reads s => s[i]);
    assert t[..n] == s[..n];
  }
}
