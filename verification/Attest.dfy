/** DSSE's Pre-Authentication Encoding (internal/attest/dsse.go). */
module Attest {
  import opened Strings
  import opened Decimal

  function Pae(payloadType: string, payload: string): string {
    "DSSEv1 " + Dec(|payloadType|) + " " + payloadType + " " + Dec(|payload|) + " " + payload
  }

  /** A length, a space, that many bytes, and what follows. */
  lemma {:induction false} SizedReads(a: string, b: string, r: string, s: string)
    requires Dec(|a|) + [' '] + (a + r) == Dec(|b|) + [' '] + (b + s)
    ensures a == b && r == s
  {
    NumberEnds(|a|, |b|, ' ', a + r, b + s);
    assert a == (a + r)[..|a|] && b == (b + s)[..|b|];
    assert r == (a + r)[|a|..] && s == (b + s)[|b|..];
  }

  lemma {:induction false} PaeIsSized(t: string, p: string)
    ensures Pae(t, p) == "DSSEv1 " + (Dec(|t|) + [' '] + (t + (" " + (Dec(|p|) + [' '] + (p + "")))))
  {
    hide Dec;
  }

  lemma CancelPrefix(head: string, a: string, b: string)
    requires head + a == head + b
    ensures a == b
  {
    assert a == (head + a)[|head|..] && b == (head + b)[|head|..];
  }

  /** What is signed binds the payload to its type: no two pairs encode alike. */
  lemma PaeInjective(t: string, p: string, u: string, q: string)
    ensures Pae(t, p) == Pae(u, q) <==> t == u && p == q
  {
    hide Dec, Pae;
    if Pae(t, p) == Pae(u, q) {
      PaeIsSized(t, p);
      PaeIsSized(u, q);
      var x, y := Dec(|p|) + [' '] + (p + ""), Dec(|q|) + [' '] + (q + "");
      CancelPrefix("DSSEv1 ", Dec(|t|) + [' '] + (t + (" " + x)), Dec(|u|) + [' '] + (u + (" " + y)));
      SizedReads(t, u, " " + x, " " + y);
      CancelPrefix(" ", x, y);
      SizedReads(p, q, "", "");
    }
  }
}
