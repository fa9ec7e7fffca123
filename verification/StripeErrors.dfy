/** How subscription_service.go reads Stripe's errors. */
module StripeErrors {

  /** An error chain that holds a *stripe.Error, or one that lost the type on the way. */
  datatype ApiError = Typed(http: nat, code: string, msg: string) | Untyped(text: string)

  predicate Contains(s: string, part: string) {
    part <= s || (s != "" && Contains(s[1..], part))
  }

  lemma {:induction false} ContainsMeans(s: string, part: string)
    ensures Contains(s, part) <==> exists i :: 0 <= i <= |s| && part <= s[i..]
  {
    assert s[0..] == s;
    if s != "" {
      ContainsMeans(s[1..], part);
      assert forall i :: 0 <= i < |s| ==> s[1..][i..] == s[i+1..];
      if !(part <= s) && exists i :: 0 <= i <= |s| && part <= s[i..] {
        var i :| 0 <= i <= |s| && part <= s[i..];
        assert part <= s[1..][i-1..];
      }
      if i :| 0 <= i <= |s| - 1 && part <= s[1..][i..] { assert part <= s[i+1..]; }
    }
  }

  predicate SubscriptionMissing(e: ApiError) {
    match e
    case Typed(http, code, _) => http == 404 && code == "resource_missing"
    case Untyped(text) => Contains(text, "resource_missing")
  }

  predicate SubscriptionGone(e: ApiError) {
    SubscriptionMissing(e) || (e.Typed? && e.http == 400 && Contains(e.msg, "incomplete_expired"))
  }
}
