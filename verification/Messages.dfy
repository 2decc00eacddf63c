/** The text form of a signal, `src/signalling/messages.js`. */
module Messages {
  import opened Text
  import opened Wrappers

  datatype Signal = Signal(typ: string, connectionId: int, data: string)

  /** `SignalStructure.toString` */
  function ToString(s: Signal): string {
    s.typ + " " + (Decimal(s.connectionId) + " " + s.data)
  }

  /** `BigInt(token)`. Tokens that are not plain decimals are left to `literal`; None is the exception it throws. */
  function ParseBigInt(token: string, literal: string -> Option<int>): Option<int> {
    if IsDecimal(token) then Some(ParseDecimal(token)) else literal(token)
  }

  /** `SignalStructure.fromString`. None is the exception: no id, or an id that is not an integer. */
  function FromString(message: string, literal: string -> Option<int>): Option<Signal> {
    var parts := Split(message, ' ');
    if |parts| < 2 then None
    else
      var id := ParseBigInt(parts[1], literal);
      if id.None? then None else Some(Signal(parts[0], id.value, Join(parts[2..], " ")))
  }

  /**
   Reading back what was written restores the signal, for every id, every data string (empty, or with spaces
   anywhere) and every reading of unusual literals, exactly when the type has no space in it.
   */
  lemma RoundTripIffPlainType(s: Signal, literal: string -> Option<int>)
    ensures FromString(ToString(s), literal) == Some(s) <==> ' ' !in s.typ
  {
    if ' ' !in s.typ {
      var rest := Decimal(s.connectionId) + " " + s.data;
      DecimalRoundTrip(s.connectionId);
      SplitOff(s.typ, ' ', rest);
      SplitOff(Decimal(s.connectionId), ' ', s.data);
      JoinSplit(s.data, ' ');
      var parts := Split(ToString(s), ' ');
      assert parts == [s.typ] + ([Decimal(s.connectionId)] + Split(s.data, ' '));
      assert parts[2..] == Split(s.data, ' ');
    }
  }

  /** All three parts are there, and the id is written as `toString` writes it. */
  predicate IsCanonical(message: string) {
    var parts := Split(message, ' ');
    |parts| >= 3 && IsDecimal(parts[1]) && parts[1] == Decimal(ParseDecimal(parts[1]))
  }

  /** Writing what was read restores the message exactly when it is canonical. */
  lemma ReadThenWriteIff(message: string, literal: string -> Option<int>)
    ensures IsCanonical(message)
       <==> FromString(message, literal).Some? && ToString(FromString(message, literal).value) == message
  {
    var parts, read := Split(message, ' '), FromString(message, literal);
    if IsCanonical(message) {
      ReadThenWrite(message, literal);
    } else if read.Some? && ToString(read.value) == message {
      var rest := Decimal(read.value.connectionId) + " " + read.value.data;
      DecimalRoundTrip(read.value.connectionId);
      SplitOff(read.value.typ, ' ', rest);
      SplitOff(Decimal(read.value.connectionId), ' ', read.value.data);
      assert parts == [read.value.typ] + ([Decimal(read.value.connectionId)] + Split(read.value.data, ' '));
      assert false;
    }
  }

  /** Writing what was read restores the message when it had all three parts and its id in canonical form. */
  lemma ReadThenWrite(message: string, literal: string -> Option<int>)
    requires var parts := Split(message, ' ');
             |parts| >= 3 && exists n :: parts[1] == Decimal(n)
    ensures FromString(message, literal).Some?
    ensures ToString(FromString(message, literal).value) == message
  {
    var parts := Split(message, ' ');
    var n :| parts[1] == Decimal(n);
    DecimalRoundTrip(n);
    JoinSplit(message, ' ');
    assert parts[1..][1..] == parts[2..];
    assert parts[1..][0] == parts[1];
  }
}
