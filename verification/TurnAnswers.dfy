/** What the answers to a probe mean, attribute by attribute and byte by byte. */
module TurnAnswers {
  import opened Bytes
  import opened Sequences
  import opened Wrappers
  import opened TurnRedirect

  // ---------------------------------------------------------------------------------------------------------
  // The last code and the last alternate

  /** An ERROR-CODE that says `code`: its class in the low bits of byte 2, its number in byte 3. */
  predicate SaysCode(a: Attribute, code: int) {
    a.typ == 0x0009 && |a.value| >= 4 && code == (a.value[2] as int) % 8 * 100 + a.value[3]
  }

  /** An ALTERNATE-SERVER that gives an IPv4 address and a port. */
  predicate SaysAlternate(a: Attribute, ip: bytes, port: nat) {
    && a.typ == 0x8023 && |a.value| == 8 && a.value[1] == 0x01
    && port == 256 * (a.value[2] as int) + a.value[3]
    && ip == a.value[4..8]
  }

  predicate IsCode(a: Attribute) {
    a.typ == 0x0009 && |a.value| >= 4
  }

  predicate IsAlternate(a: Attribute) {
    a.typ == 0x8023 && |a.value| == 8 && a.value[1] == 0x01
  }

  /** Attribute `i` says `code`, and none after it says another. */
  ghost predicate LastSaysCode(attrs: seq<Attribute>, i: int, code: int) {
    0 <= i < |attrs| && SaysCode(attrs[i], code) && forall j | i < j < |attrs| :: !IsCode(attrs[j])
  }

  ghost predicate LastSaysAlternate(attrs: seq<Attribute>, i: int, ip: bytes, port: nat) {
    0 <= i < |attrs| && SaysAlternate(attrs[i], ip, port) && forall j | i < j < |attrs| :: !IsAlternate(attrs[j])
  }

  lemma {:induction false} LastCodeIff(attrs: seq<Attribute>, code: nat)
    ensures LastCode(attrs) == Some(code) <==> exists i :: LastSaysCode(attrs, i, code)
  {
    if attrs != [] {
      var last := |attrs| - 1;
      var init := attrs[..last];
      if IsCode(attrs[last]) {
        if LastCode(attrs) == Some(code) {
          assert LastSaysCode(attrs, last, code);
        }
      } else {
        LastCodeIff(init, code);
        if i :| LastSaysCode(init, i, code) {
          assert LastSaysCode(attrs, i, code);
        }
        if i :| LastSaysCode(attrs, i, code) {
          assert LastSaysCode(init, i, code);
        }
      }
    }
  }

  lemma {:induction false} LastAlternateIff(attrs: seq<Attribute>, ip: bytes, port: nat)
    ensures LastAlternate(attrs) == Some(Alternate(ip, port)) <==> exists i :: LastSaysAlternate(attrs, i, ip, port)
  {
    if attrs != [] {
      var last := |attrs| - 1;
      var init := attrs[..last];
      if IsAlternate(attrs[last]) {
        assert attrs[last].value[4..] == attrs[last].value[4..8];
        if LastAlternate(attrs) == Some(Alternate(ip, port)) {
          assert LastSaysAlternate(attrs, last, ip, port);
        }
      } else {
        LastAlternateIff(init, ip, port);
        if i :| LastSaysAlternate(init, i, ip, port) {
          assert LastSaysAlternate(attrs, i, ip, port);
        }
        if i :| LastSaysAlternate(attrs, i, ip, port) {
          assert LastSaysAlternate(init, i, ip, port);
        }
      }
    }
  }

  /** The verdict is a redirect exactly when the last code is 300 and the last alternate has a port. */
  lemma RedirectIff(attrs: seq<Attribute>, ip: bytes, port: nat)
    ensures Verdict(attrs) == Redirect(Alternate(ip, port))
       <==> && port != 0
            && (exists i :: LastSaysCode(attrs, i, 300))
            && exists j :: LastSaysAlternate(attrs, j, ip, port)
  {
    LastCodeIff(attrs, 300);
    LastAlternateIff(attrs, ip, port);
    var code, alternate := LastCode(attrs), LastAlternate(attrs);
    assert Verdict(attrs) == Redirect(Alternate(ip, port))
      <==> code == Some(300) && alternate == Some(Alternate(ip, port)) && port != 0;
  }

  // ---------------------------------------------------------------------------------------------------------
  // Bytes

  /** An Allocate error response with one ERROR-CODE and one ALTERNATE-SERVER. */
  function AnswerBytes(transaction: bytes, digit: byte, number: byte, high: byte, low: byte, ip: bytes): bytes {
    [0x01, 0x13, 0, 20, 0x21, 0x12, 0xa4, 0x42] + transaction
    + ([0x00, 0x09, 0, 4, 0, 0, digit, number] + ([0x80, 0x23, 0, 8, 0, 0x01, high, low] + ip))
  }

  lemma TwoAttributes(digit: byte, number: byte, high: byte, low: byte, ip: bytes)
    returns (attrs: seq<Attribute>)
    requires |ip| == 4
    ensures AllWellFormed(attrs) && Usable(attrs)
    ensures attrs == [Attribute(9, [0, 0, digit, number], []), Attribute(0x8023, [0, 1, high, low] + ip, [])]
    ensures EncodeAll(attrs)
         == [0x00, 0x09, 0, 4, 0, 0, digit, number] + ([0x80, 0x23, 0, 8, 0, 0x01, high, low] + ip)
  {
    var a := Attribute(9, [0, 0, digit, number], []);
    var b := Attribute(0x8023, [0, 1, high, low] + ip, []);
    attrs := [a, b];
    assert EncodeOne(a) == [0x00, 0x09, 0, 4, 0, 0, digit, number];
    assert EncodeOne(b) == [0x80, 0x23, 0, 8, 0, 0x01, high, low] + ip;
    assert attrs[1..] == [b] && [b][1..] == [];
    assert EncodeAll([b]) == EncodeOne(b) + [];
    Nothing(EncodeOne(b));
    assert attrs[0].typ == ERROR_CODE;
  }

  lemma HeaderBytes(transaction: bytes)
    requires |transaction| == 12
    ensures Header(20, transaction) == [0x01, 0x13, 0, 20, 0x21, 0x12, 0xa4, 0x42] + transaction
  {
    assert Be16(ALLOCATE_ERROR) == [0x01, 0x13] && Be16(20) == [0, 20];
    assert Cookie() == [0x21, 0x12, 0xa4, 0x42];
  }

  lemma TwoVerdict(digit: byte, number: byte, high: byte, low: byte, ip: bytes)
    requires |ip| == 4
    ensures var attrs := [Attribute(9, [0, 0, digit, number], []), Attribute(0x8023, [0, 1, high, low] + ip, [])];
            var port := 256 * (high as int) + low;
            Verdict(attrs) == if (digit as int) % 8 * 100 + number == 300 && port != 0
                              then Redirect(Alternate(ip, port)) else Null
  {
    var a := Attribute(9, [0, 0, digit, number], []);
    var b := Attribute(0x8023, [0, 1, high, low] + ip, []);
    var attrs := [a, b];
    assert attrs[..1] == [a] && [a][..0] == [];
    assert b.value[4..] == ip;
    assert LastAlternate(attrs) == Some(Alternate(ip, 256 * (high as int) + low));
    assert LastCode(attrs) == LastCode([a]) == Some((digit as int) % 8 * 100 + number);
  }

  /**
   From the bytes of an answer to what comes back: the alternate exactly for code 300 and a port other than 0. For
   numbers below 100 that is class 3 and number 0.
   */
  lemma BytesSayRedirect(request: bytes, digit: byte, number: byte, high: byte, low: byte, ip: bytes, result: Parsed)
    requires |request| >= 20 && |ip| == 4
    requires IsResult(AnswerBytes(request[8..20], digit, number, high, low, ip), request, result)
    ensures var port := 256 * (high as int) + low;
            && result == (if (digit as int) % 8 * 100 + number == 300 && port != 0
                          then Redirect(Alternate(ip, port)) else Null)
            && (number < 100 && digit < 8 && port != 0 ==>
                  (result == Redirect(Alternate(ip, port)) <==> digit == 3 && number == 0))
  {
    var transaction := request[8..20];
    var msg := AnswerBytes(transaction, digit, number, high, low, ip);
    var attrs := TwoAttributes(digit, number, high, low, ip);
    HeaderBytes(transaction);
    assert Subarray(request, 8, 20) == transaction;
    assert |EncodeAll(attrs)| == 20;
    assert Carries(msg, request, attrs);
    TwoVerdict(digit, number, high, low, ip);
  }
}
