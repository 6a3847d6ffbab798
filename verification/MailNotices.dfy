/** Idempotency keys of the notices to registered addresses, and how many a time span can bring. */
module MailNotices {
  import opened Letters
  import opened MailQueue

  const RESEND_INTERVAL := 60

  /** Integer division as Go divides, towards zero. */
  function Quotient(a: int, b: int): int
    requires b > 0
  {
    if a >= 0 then a / b else -((-a) / b)
  }

  /** The quotient is the one integer whose remainder is smaller than `b` and has the sign of `a`. */
  lemma QuotientIs(a: int, b: int, q: int)
    requires b > 0
    ensures q == Quotient(a, b) <==> if a >= 0 then 0 <= a - q * b < b else -b < a - q * b <= 0
  {
    if a >= 0 {
      DivisionIs(a, b, q);
    } else {
      DivisionIs(-a, b, -q);
      assert (-q) * b == -(q * b);
    }
  }

  lemma TimesMonotone(x: int, y: int, b: int)
    requires x <= y && b > 0
    ensures x * b <= y * b
  {
    assert (y - x) * b >= 0;
  }

  lemma OneQuotient(a: int, b: int, q: int, d: int)
    requires b > 0 && q * b <= a < q * b + b && d * b <= a < d * b + b
    ensures q == d
  {
    if q < d {
      TimesMonotone(q + 1, d, b);
    } else if d < q {
      TimesMonotone(d + 1, q, b);
    }
  }

  lemma DivisionIs(a: int, b: int, q: int)
    requires a >= 0 && b > 0
    ensures q == a / b <==> q * b <= a < q * b + b
  {
    var d := a / b;
    assert d * b <= a < d * b + b;
    if q * b <= a < q * b + b {
      OneQuotient(a, b, q, d);
    }
  }

  /** `at` is the request's time in whole Unix seconds. */
  function NoticeKey(email: string, at: int): MailKey
  {
    AlreadyRegistered(Lower(email), Quotient(at, RESEND_INTERVAL))
  }

  /** Lowering twice changes nothing, so a key does not depend on the letter case it was asked in. */
  lemma LowerIdempotent(s: string)
    ensures Lower(Lower(s)) == Lower(s)
  {
  }

  /** Two requests share a key exactly when address, up to letter case, and window are the same. */
  lemma KeysOfRequests(a: string, s: int, b: string, t: int)
    ensures NoticeKey(a, s) == NoticeKey(b, t) <==> SameLetters(a, b) && Quotient(s, 60) == Quotient(t, 60)
  {
    LowerIs(a, b);
  }

  /** The windows of any 60 seconds, before or after 1970, are those of its two ends, at most two. */
  lemma TwoWindows(t: int, at: int)
    requires t <= at <= t + 60
    ensures var first, last := Quotient(t, 60), Quotient(t + 60, 60);
            first <= last <= first + 1 && (Quotient(at, 60) == first || Quotient(at, 60) == last)
  {
  }

  /**
   * In every run of the mailer, whatever requests come for one registered address in whatever
   * letter case, those made within any 60 seconds bring at most two notices.
   */
  lemma AtMostTwoNotices(s: System, n: nat, address: string, t: int)
    requires Reached(s, n)
    ensures var first, last := NoticeKey(address, t), NoticeKey(address, t + 60);
            && (forall email, at :: Lower(email) == Lower(address) && t <= at <= t + 60 ==>
                  NoticeKey(email, at) == first || NoticeKey(email, at) == last)
            && s.deliveries[first] + (if first == last then 0 else s.deliveries[last]) <= 2
  {
    MailerIsSafe(s, n);
    forall email, at | Lower(email) == Lower(address) && t <= at <= t + RESEND_INTERVAL
      ensures NoticeKey(email, at) == NoticeKey(address, t) ||
              NoticeKey(email, at) == NoticeKey(address, t + RESEND_INTERVAL)
    {
      TwoWindows(t, at);
    }
  }

  /**
   * Two is reached: two requests less than a minute apart have different keys exactly when a window
   * ends between them.
   */
  lemma DifferentKeys(email: string, a: int, b: int)
    requires 0 <= a <= b < a + 60
    ensures NoticeKey(email, a) != NoticeKey(email, b) <==>
            exists w :: a < w * 60 <= b
  {
    var w := b / RESEND_INTERVAL;
    if NoticeKey(email, a) != NoticeKey(email, b) {
      assert a < w * RESEND_INTERVAL <= b;
    }
    if v :| a < v * RESEND_INTERVAL <= b {
      assert a / RESEND_INTERVAL < v <= b / RESEND_INTERVAL;
    }
  }
}
