/** Small vocabulary shared by every module of the model. */
module Prelude {

  datatype Option<+T> = None | Some(value: T) {
    function GetOr(default: T): T {
      match this
      case Some(v) => v
      case None => default
    }
  }

  /** A Python dictionary lookup with `.get(key)`. */
  function Get<K, V>(m: map<K, V>, k: K): Option<V> {
    if k in m then Some(m[k]) else None
  }

  /** The length of `n` intervals of length `step`. */
  function Span(n: int, step: real): real {
    n as real * step
  }

  lemma SpanMonotone(m: int, n: int, step: real)
    requires m <= n && step > 0.0
    ensures Span(m, step) <= Span(n, step)
  {
  }

  lemma SpanSucc(n: int, step: real)
    ensures Span(n + 1, step) == Span(n, step) + step
  {
  }

  lemma Cancel(x: real, y: real, step: real)
    requires step > 0.0 && x * step <= y * step
    ensures x <= y
  {
    assert (x - y) * step <= 0.0;
  }

  /** If `n` intervals of length `step` fit into `width`, then n is at most floor(width / step). */
  lemma FloorBound(n: int, step: real, width: real)
    requires step > 0.0
    requires Span(n, step) <= width
    ensures n <= (width / step).Floor
  {
    var q := width / step;
    assert q * step == width;
    Cancel(n as real, q, step);
  }

  /** Instants at least `step` apart are far apart in proportion to their number. */
  lemma {:induction false} SpacedSpan(L: seq<real>, step: real, i: nat, j: nat)
    requires i <= j < |L| && forall k :: 0 <= k < |L| - 1 ==> L[k + 1] - L[k] >= step
    ensures Span(j - i, step) <= L[j] - L[i]
    decreases j - i
  {
    if i < j {
      SpacedSpan(L, step, i, j - 1);
      SpanSucc(j - 1 - i, step);
      assert L[(j - 1) + 1] - L[j - 1] >= step;
    }
  }

  /** ASCII lower case. */
  function LowerChar(c: char): char {
    if 'A' <= c <= 'Z' then (c as int + 32) as char else c
  }

  function Lower(s: string): string { if s == "" then "" else [LowerChar(s[0])] + Lower(s[1..]) }

  lemma LowerCaseLetters(i: nat)
    requires i < 26
    ensures LowerChar("ABCDEFGHIJKLMNOPQRSTUVWXYZ"[i]) == "abcdefghijklmnopqrstuvwxyz"[i]
    ensures LowerChar("abcdefghijklmnopqrstuvwxyz"[i]) == "abcdefghijklmnopqrstuvwxyz"[i]
  {
  }
}
