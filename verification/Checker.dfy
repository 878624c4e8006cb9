// Check and checkOnce of internal/proxy/check.go: one endpoint, its fallback, and the retry loop around them.
module Checker {
  import opened Model
  import opened Health

  // Either endpoint's answer, or no answer from a fallback that is not configured.
  function Once(primary: Verdict, fallback: Option<Verdict>): Verdict {
    match (primary, fallback)
    case (Some(error), Some(Some(other))) => Some("both health endpoints failed: primary: " + error + "; fallback: " + other)
    case (Some(_), Some(None)) => None
    case _ => primary
  }

  // A proxy passes when either endpoint confirms it. Otherwise the error is the first endpoint's, or both when a second is
  // configured.
  lemma OnceExact(primary: Verdict, fallback: Option<Verdict>)
    ensures Once(primary, fallback) == None <==> primary == None || fallback == Some(None)
    ensures fallback == None ==> Once(primary, fallback) == primary
    ensures forall a, b :: primary == Some(a) && fallback == Some(Some(b)) ==>
              Once(primary, fallback) == Some("both health endpoints failed: primary: " + a + "; fallback: " + b)
  {
  }

  datatype Conclusion = Healthy | Interrupted | Exhausted(last: string)

  // once(k) is what attempt k returns, cancelled(k) whether the context ends in the wait after it. The loop stops at
  // the first success, at the first wait that is cancelled, or after the last attempt, whichever comes first.
  method Check(attempts: int, once: nat -> Verdict, cancelled: nat -> bool) returns (r: Conclusion, tries: nat)
    ensures 1 <= tries && (tries > 1 ==> tries <= attempts)
    ensures forall k: nat :: 1 <= k < tries ==> once(k).Some? && !cancelled(k)
    ensures r == Healthy <==> once(tries) == None
    ensures r == Interrupted <==> once(tries).Some? && tries < attempts
    ensures r == Interrupted ==> cancelled(tries)
    ensures r.Exhausted? ==> once(tries) == Some(r.last) && (tries == attempts || (attempts < 1 && tries == 1))
  {
    var limit := if attempts < 1 then 1 else attempts;
    tries := 1;
    while true
      invariant 1 <= tries <= limit
      invariant forall k: nat :: 1 <= k < tries ==> once(k).Some? && !cancelled(k)
      decreases limit - tries
    {
      var last := once(tries);
      if last == None {
        return Healthy, tries;
      }
      if tries == limit {
        return Exhausted(last.value), tries;
      }
      if cancelled(tries) {
        return Interrupted, tries;
      }
      tries := tries + 1;
    }
  }
}
