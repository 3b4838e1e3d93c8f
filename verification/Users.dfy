/** The text by which the server knows a user: who can own a booking. */
module Users {
  import opened Basics
  import opened Text
  import opened ServerModel

  lemma PortWithoutColon(n: int)
    ensures ':' !in PrintInt(n)
  {
  }

  /** The port adds no end of line. */
  lemma UserOnOneLine(client: Endpoint)
    requires '\n' !in client.address
    ensures '\n' !in UserInfo(client)
  {
    assert '\n' !in PrintInt(client.port);
  }

  /** Address, a colon, and the port, which Java reads back. */
  lemma UserReads(client: Endpoint)
    requires InInt32(client.port)
    ensures var user, k := UserInfo(client), |client.address|;
            k < |user| && user[..k] == client.address && user[k] == ':' && ParseInt(user[k + 1..]) == Some(client.port)
  {
    ParsePrint(client.port);
    assert UserInfo(client)[|client.address| + 1..] == PrintInt(client.port);
  }

  /** No two endpoints are the same user. */
  lemma UserInfoInjective(a: Endpoint, b: Endpoint)
    ensures UserInfo(a) == UserInfo(b) ==> a == b
  {
    hide PrintInt;
    if UserInfo(a) == UserInfo(b) {
      PortWithoutColon(a.port);
      PortWithoutColon(b.port);
      LastColon(a.address, PrintInt(a.port), b.address, PrintInt(b.port));
      PrintInjective(a.port, b.port);
    }
  }

  lemma LastColon(a: string, p: string, b: string, q: string)
    requires a + ":" + p == b + ":" + q && ':' !in p && ':' !in q
    ensures a == b && p == q
  {
    var s, t := a + ":" + p, b + ":" + q;
    assert s[|a|] == ':' && t[|b|] == ':';
    assert forall i :: |a| < i < |s| ==> s[i] == p[i - |a| - 1] && s[i] in p;
    assert forall i :: |b| < i < |t| ==> t[i] == q[i - |b| - 1] && t[i] in q;
    assert |a| == |b|;
    assert a == s[..|a|] == t[..|b|] == b;
    assert p == s[|a| + 1..] == t[|b| + 1..] == q;
  }

  lemma PrintInjective(m: int, n: int)
    requires PrintInt(m) == PrintInt(n)
    ensures m == n
  {
    SignOf(m);
    SignOf(n);
    if m < 0 {
      assert PrintInt(m)[1..] == PrintNat(-m) && PrintInt(n)[1..] == PrintNat(-n);
      NatOfPrint(-m);
      NatOfPrint(-n);
    } else {
      NatOfPrint(m);
      NatOfPrint(n);
    }
  }

  lemma SignOf(n: int)
    ensures PrintInt(n)[0] == '-' <==> n < 0
  {
    if n >= 0 {
      assert IsDigit(PrintNat(n)[0]);
    }
  }
}
