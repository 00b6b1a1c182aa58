/** The `server_url` property: the address the HTTP server announces. */
module ServerAddress {

  /** The character for a decimal digit. */
  function Digit(d: nat): (c: char)
    requires d < 10
    ensures '0' <= c <= '9'
  {
    ('0' as int + d) as char
  }

  /** The value of a decimal digit character. */
  function DigitValue(c: char): nat
    requires '0' <= c <= '9'
  {
    c as int - '0' as int
  }

  predicate AllDigits(s: string) {
    forall i :: 0 <= i < |s| ==> '0' <= s[i] <= '9'
  }

  /** Python's `str(n)` for a non-negative integer. */
  function NatToString(n: nat): (s: string)
    ensures |s| > 0 && AllDigits(s)
  {
    if n < 10 then [Digit(n)] else NatToString(n / 10) + [Digit(n % 10)]
  }

  /** Python's `str(i)`, with a leading `-` for a negative integer. */
  function IntToString(i: int): (s: string)
    ensures |s| > 0
    // a leading `-` exactly for a negative integer
    ensures s[0] == '-' <==> i < 0
  {
    if i < 0 then "-" + NatToString(-i) else NatToString(i)
  }

  /** The number a string of decimal digits denotes. */
  function ParseNat(s: string): nat
    requires AllDigits(s)
  {
    if s == [] then 0 else 10 * ParseNat(s[..|s| - 1]) + DigitValue(s[|s| - 1])
  }

  /** Reading back the decimal rendering gives the number. */
  lemma {:induction false} NatRoundTrip(n: nat)
    ensures ParseNat(NatToString(n)) == n
  {
    if n >= 10 {
      NatRoundTrip(n / 10);
      var s := NatToString(n);
      assert s[..|s| - 1] == NatToString(n / 10);
    }
  }

  /** Different integers render differently. */
  lemma IntToStringInjective(p: int, q: int)
    ensures IntToString(p) == IntToString(q) <==> p == q
  {
    if p < 0 && q < 0 {
      if p != q {
        NegativesDiffer(p, q);
      }
    } else if p >= 0 && q >= 0 {
      NatRoundTrip(p);
      NatRoundTrip(q);
    } else if p < 0 {
      assert IntToString(p)[0] != IntToString(q)[0];
    } else {
      assert IntToString(p)[0] != IntToString(q)[0];
    }
  }

  /** Different negative integers render differently past the sign. */
  lemma NegativesDiffer(p: int, q: int)
    requires p < 0 && q < 0 && p != q
    ensures IntToString(p) != IntToString(q)
  {
    NatToStringInjective(-p, -q);
    DropSign(p);
    DropSign(q);
  }

  /** Past the sign, a negative integer renders as its magnitude. */
  lemma DropSign(i: int)
    requires i < 0
    ensures IntToString(i)[1..] == NatToString(-i)
  {
  }

  /** Different naturals render differently. */
  lemma NatToStringInjective(a: nat, b: nat)
    requires a != b
    ensures NatToString(a) != NatToString(b)
  {
    NatRoundTrip(a);
    NatRoundTrip(b);
  }

  /** `server_url`: `http://host`, followed by `:port` unless the port is 80. */
  function ServerUrl(host: string, port: int): (r: string)
    // the scheme and the host come first, then `:port` or nothing
    ensures |"http://" + host| <= |r| && r[..|"http://" + host|] == "http://" + host
    ensures |r| == |"http://" + host| || r[|"http://" + host|] == ':'
  {
    "http://" + host + (if port != 80 then ":" + IntToString(port) else "")
  }

  /** The port is left out of the address exactly when it is 80. */
  lemma ServerUrlDefaultPort(host: string, port: int)
    ensures ServerUrl(host, port) == "http://" + host <==> port == 80
  {
    if port != 80 {
      assert |ServerUrl(host, port)| > |"http://" + host|;
    }
  }

  /** For a given host, the announced address identifies the port. */
  lemma ServerUrlDeterminesPort(host: string, p: int, q: int)
    ensures ServerUrl(host, p) == ServerUrl(host, q) <==> p == q
  {
    ServerUrlDefaultPort(host, p);
    ServerUrlDefaultPort(host, q);
    if p != 80 && q != 80 {
      PortAfterHost(host, p);
      PortAfterHost(host, q);
      IntToStringInjective(p, q);
    }
  }

  /** Past the host and the colon, an address with a port holds the port. */
  lemma PortAfterHost(host: string, port: int)
    requires port != 80
    ensures var n := |"http://" + host| + 1;
            n <= |ServerUrl(host, port)| && ServerUrl(host, port)[n..] == IntToString(port)
  {
    var base := "http://" + host + ":";
    assert ServerUrl(host, port) == base + IntToString(port);
  }

  /** The source address a folder slideshow announces: the server's own
      address with a trailing slash, the port written out unless it is 80. */
  function FolderSource(host: string, port: int): (r: string)
    ensures |r| > |"http://" + host| && r[|r| - 1] == '/'
  {
    if port != 80 then "http://" + host + ":" + IntToString(port) + "/" else "http://" + host + "/"
  }

  /** A folder slideshow announces the server address plus `/`. */
  lemma FolderSourceIsServerUrl(host: string, port: int)
    ensures FolderSource(host, port) == ServerUrl(host, port) + "/"
  {
  }
}
