/**
 * `validateIP` (src/main.js): the router address must be a dotted quad of
 * decimal octets no larger than 255, or `localhost`.
 */
module IpAddress {
  import opened Text

  /** One octet of the address pattern, alternative by alternative: `25[0-5]|2[0-4][0-9]|[01]?[0-9][0-9]?`. */
  predicate OctetPattern(f: string)
  {
    || (|f| == 3 && f[0] == '2' && f[1] == '5' && '0' <= f[2] <= '5')
    || (|f| == 3 && f[0] == '2' && '0' <= f[1] <= '4' && IsDigit(f[2]))
    || (|f| == 3 && (f[0] == '0' || f[0] == '1') && IsDigit(f[1]) && IsDigit(f[2]))
    || (|f| == 2 && IsDigit(f[0]) && IsDigit(f[1]))
    || (|f| == 1 && IsDigit(f[0]))
  }

  /** The anchored `(?:octet\.){3}octet` alternative: four dot-separated fields, each an octet. */
  predicate QuadPattern(ip: string)
  {
    var fields := Split(ip, '.');
    |fields| == 4 && forall i :: 0 <= i < 4 ==> OctetPattern(fields[i])
  }

  /** `validateIP(ip)`: the whole regular expression, with its four alternatives. */
  predicate ValidateIP(ip: string)
  {
    QuadPattern(ip) || ip == "localhost" || ip == "127.0.0.1" || ip == "10.101.130.101"
  }

  // ------------------------------------------------------------- meaning

  /** A decimal octet: one to three digits with a value of at most 255. */
  predicate IsOctet(f: string)
  {
    1 <= |f| <= 3 && AllDigits(f) && DecimalValue(f) <= 255
  }

  /** Four octets joined by dots. */
  ghost predicate DottedQuad(ip: string)
  {
    exists fields: seq<string> ::
      |fields| == 4 && (forall i :: 0 <= i < 4 ==> IsOctet(fields[i])) && ip == Join(fields, '.')
  }

  lemma ThreeDigitValue(f: string)
    requires |f| == 3 && AllDigits(f)
    ensures DecimalValue(f) == 100 * DigitValue(f[0]) + 10 * DigitValue(f[1]) + DigitValue(f[2])
  {
    var one, two := f[..1], f[..2];
    assert DecimalValue(one) == DigitValue(f[0]) by { assert one[..0] == []; }
    assert DecimalValue(two) == 10 * DecimalValue(one) + DigitValue(f[1]) by { assert two[..1] == one; }
    assert DecimalValue(f) == 10 * DecimalValue(two) + DigitValue(f[2]);
  }

  lemma TwoDigitValue(f: string)
    requires |f| == 2 && AllDigits(f)
    ensures DecimalValue(f) == 10 * DigitValue(f[0]) + DigitValue(f[1])
  {
    var one := f[..1];
    assert DecimalValue(one) == DigitValue(f[0]) by { assert one[..0] == []; }
    assert DecimalValue(f) == 10 * DecimalValue(one) + DigitValue(f[1]);
  }

  /** The octet alternatives accept exactly the decimal octets (`010` included, `256` and `299` not). */
  lemma OctetPatternMeaning(f: string)
    ensures OctetPattern(f) <==> IsOctet(f)
  {
    if OctetPattern(f) {
      assert AllDigits(f) by {
        forall i | 0 <= i < |f| ensures IsDigit(f[i]) { }
      }
    }
    if |f| == 3 && AllDigits(f) {
      ThreeDigitValue(f);
      assert IsDigit(f[0]) && IsDigit(f[1]) && IsDigit(f[2]);
      var d0, d1, d2 := DigitValue(f[0]), DigitValue(f[1]), DigitValue(f[2]);
      assert (f[0] == '0' || f[0] == '1') <==> d0 <= 1;
      assert f[0] == '2' <==> d0 == 2;
      assert '0' <= f[1] <= '4' <==> d1 <= 4;
      assert f[1] == '5' <==> d1 == 5;
      assert '0' <= f[2] <= '5' <==> d2 <= 5;
      assert OctetPattern(f) ==> IsOctet(f);
      assert IsOctet(f) ==> OctetPattern(f);
    } else if |f| == 2 && AllDigits(f) {
      TwoDigitValue(f);
      assert IsDigit(f[0]) && IsDigit(f[1]);
    } else if |f| == 1 && AllDigits(f) {
      assert f[..0] == [];
      assert IsDigit(f[0]);
    }
  }

  lemma QuadPatternMeaning(ip: string)
    ensures QuadPattern(ip) <==> DottedQuad(ip)
  {
    var fields := Split(ip, '.');
    if QuadPattern(ip) {
      forall i | 0 <= i < 4 ensures IsOctet(fields[i]) {
        OctetPatternMeaning(fields[i]);
      }
      JoinSplit(ip, '.');
      assert |fields| == 4 && (forall i :: 0 <= i < 4 ==> IsOctet(fields[i])) && ip == Join(fields, '.');
    }
    if DottedQuad(ip) {
      var fs: seq<string> :| |fs| == 4 && (forall i :: 0 <= i < 4 ==> IsOctet(fs[i])) && ip == Join(fs, '.');
      forall i | 0 <= i < 4 ensures '.' !in fs[i] && OctetPattern(fs[i]) {
        OctetPatternMeaning(fs[i]);
        assert forall k :: 0 <= k < |fs[i]| ==> IsDigit(fs[i][k]);
      }
      SplitJoin(fs, '.');
    }
  }

  lemma JoinFour(a: string, b: string, c: string, d: string)
    ensures Join([a, b, c, d], '.') == a + "." + b + "." + c + "." + d
  {
    assert Join([c, d], '.') == c + "." + d by { assert [c, d][1..] == [d]; }
    assert Join([b, c, d], '.') == b + "." + c + "." + d by { assert [b, c, d][1..] == [c, d]; }
    assert [a, b, c, d][1..] == [b, c, d];
  }

  lemma SmallOctets()
    ensures IsOctet("0") && IsOctet("1") && IsOctet("10") && IsOctet("101") && IsOctet("127") && IsOctet("130")
  {
    assert "0"[..0] == [] && "1"[..0] == [];
    TwoDigitValue("10");
    ThreeDigitValue("101");
    ThreeDigitValue("127");
    ThreeDigitValue("130");
  }

  /** The literal `127.0.0.1` of the expression is a dotted quad already. */
  lemma LoopbackIsQuad()
    ensures DottedQuad("127.0.0.1")
  {
    SmallOctets();
    JoinFour("127", "0", "0", "1");
    var fields := ["127", "0", "0", "1"];
    assert |fields| == 4 && (forall i :: 0 <= i < 4 ==> IsOctet(fields[i])) && "127.0.0.1" == Join(fields, '.');
  }

  /** The literal `10.101.130.101` (the default router) is a dotted quad already. */
  lemma DefaultRouterIsQuad()
    ensures DottedQuad("10.101.130.101")
  {
    SmallOctets();
    JoinFour("10", "101", "130", "101");
    var fields := ["10", "101", "130", "101"];
    assert |fields| == 4 && (forall i :: 0 <= i < 4 ==> IsOctet(fields[i])) && "10.101.130.101" == Join(fields, '.');
  }

  /** `validateIP` accepts exactly `localhost` and the dotted quads of decimal octets. */
  lemma ValidateIPMeaning(ip: string)
    ensures ValidateIP(ip) <==> ip == "localhost" || DottedQuad(ip)
  {
    QuadPatternMeaning(ip);
    LoopbackIsQuad();
    DefaultRouterIsQuad();
  }
}
