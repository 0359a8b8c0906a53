/** Runtime errors as runs of trace events: written depth first, with counts of one byte, and read by counting. */
module ErrorCodec {
  import opened Common

  datatype Argument = Argument(kind: Byte, data: nat)

  datatype Error = Error(kind: nat, arguments: seq<Argument>, additional: seq<Error>)

  datatype Record =
    | RuntimeError(kind: nat, argumentCount: Byte, additionalCount: Byte, topLevel: bool)
    | RuntimeErrorArgument(argumentKind: Byte, data: nat)
    | Other

  // ---------------------------------------------------------------- writing

  function ArgumentRecords(arguments: seq<Argument>): (r: seq<Record>)
    ensures |r| == |arguments|
  {
    seq(|arguments|, i requires 0 <= i < |arguments| => RuntimeErrorArgument(arguments[i].kind, arguments[i].data))
  }

  function Encode(e: Error, topLevel: bool): (r: seq<Record>)
    ensures r != []
    decreases e
  {
    [RuntimeError(e.kind, |e.arguments| % 256, |e.additional| % 256, topLevel)] +
    ArgumentRecords(e.arguments) + EncodeAll(e.additional)
  }

  function EncodeAll(errors: seq<Error>): seq<Record>
    decreases errors
  {
    if errors == [] then [] else Encode(errors[0], false) + EncodeAll(errors[1..])
  }

  lemma {:induction false} EncodeAllAppend(errors: seq<Error>, e: Error)
    ensures EncodeAll(errors + [e]) == EncodeAll(errors) + Encode(e, false)
    decreases errors
  {
    if errors == [] {
      assert errors + [e] == [e] && [e][1..] == [];
      assert EncodeAll([e]) == Encode(e, false) + EncodeAll([]);
    } else {
      assert (errors + [e])[1..] == errors[1..] + [e];
      EncodeAllAppend(errors[1..], e);
    }
  }

  class EventWriter {
    var records: seq<Record>

    constructor ()
      ensures records == []
    {
      records := [];
    }

    method Write(r: Record)
      modifies this
      ensures records == old(records) + [r]
    {
      records := records + [r];
    }

    method WriteArguments(arguments: seq<Argument>)
      modifies this
      ensures records == old(records) + ArgumentRecords(arguments)
    {
      var i := 0;
      while i < |arguments|
        invariant 0 <= i <= |arguments|
        invariant records == old(records) + ArgumentRecords(arguments[..i])
      {
        Write(RuntimeErrorArgument(arguments[i].kind, arguments[i].data));
        i := i + 1;
        assert ArgumentRecords(arguments[..i]) ==
               ArgumentRecords(arguments[..i - 1]) +
                [RuntimeErrorArgument(arguments[i - 1].kind, arguments[i - 1].data)];
      }
      assert arguments[..i] == arguments;
    }

    method WriteError(e: Error, topLevel: bool)
      modifies this
      ensures records == old(records) + Encode(e, topLevel)
      decreases e
    {
      Write(RuntimeError(e.kind, |e.arguments| % 256, |e.additional| % 256, topLevel));
      WriteArguments(e.arguments);
      ghost var before := records;
      var i := 0;
      while i < |e.additional|
        invariant 0 <= i <= |e.additional|
        invariant records == before + EncodeAll(e.additional[..i])
      {
        WriteError(e.additional[i], false);
        EncodeAllAppend(e.additional[..i], e.additional[i]);
        assert e.additional[..i + 1] == e.additional[..i] + [e.additional[i]];
        i := i + 1;
      }
      assert e.additional[..i] == e.additional;
    }
  }

  // ---------------------------------------------------------------- reading

  /** `last` is the position of the last record of the error. Absent: some record that should start an
      error does not. Malformed: the records run out, or one that should be an argument is not. */
  datatype Decoded = Read(error: Error, last: nat) | Absent | Malformed

  datatype DecodedAll = ReadAll(errors: seq<Error>, end: nat) | AbsentAll | MalformedAll

  predicate AreArguments(records: seq<Record>, from: nat, count: nat) {
    from + count <= |records| && forall i | from <= i < from + count :: records[i].RuntimeErrorArgument?
  }

  function ArgumentsAt(records: seq<Record>, from: nat, count: nat): (r: seq<Argument>)
    requires AreArguments(records, from, count)
    ensures |r| == count
  {
    seq(count, i requires 0 <= i < count => Argument(records[from + i].argumentKind, records[from + i].data))
  }

  function Decode(records: seq<Record>, at: nat): (r: Decoded)
    ensures r.Read? ==> at <= r.last < |records|
    decreases |records| - at, 1, 0
  {
    if at >= |records| then Malformed
    else if !records[at].RuntimeError? then Absent
    else if !AreArguments(records, at + 1, records[at].argumentCount) then Malformed
    else
      var arguments := ArgumentsAt(records, at + 1, records[at].argumentCount);
      match DecodeAll(records, at + 1 + |arguments|, records[at].additionalCount)
      case ReadAll(errors, end) => Read(Error(records[at].kind, arguments, errors), end - 1)
      case AbsentAll => Absent
      case MalformedAll => Malformed
  }

  /** As many errors as counted, one after another. */
  function DecodeAll(records: seq<Record>, at: nat, count: nat): (r: DecodedAll)
    requires at <= |records|
    ensures r.ReadAll? ==> at <= r.end <= |records| && |r.errors| == count
    decreases |records| - at, 2, count
  {
    if count == 0 then ReadAll([], at)
    else
      match Decode(records, at)
      case Absent => AbsentAll
      case Malformed => MalformedAll
      case Read(e, last) =>
        match DecodeAll(records, last + 1, count - 1)
        case ReadAll(errors, end) => ReadAll([e] + errors, end)
        case AbsentAll => AbsentAll
        case MalformedAll => MalformedAll
  }

  /** One more error after those already read. */
  lemma {:induction false} DecodeAllMore(records: seq<Record>, at: nat, done: nat, count: nat)
    requires at <= |records| && done <= count
    requires DecodeAll(records, at, done).ReadAll?
    ensures var d := DecodeAll(records, at, done);
            DecodeAll(records, at, count) ==
            match DecodeAll(records, d.end, count - done)
            case ReadAll(errors, end) => ReadAll(d.errors + errors, end)
            case AbsentAll => AbsentAll
            case MalformedAll => MalformedAll
    decreases done
  {
    if done == 0 {
      var rest := DecodeAll(records, at, count);
      if rest.ReadAll? {
        assert [] + rest.errors == rest.errors;
      }
    } else {
      var first := Decode(records, at);
      DecodeAllMore(records, first.last + 1, done - 1, count - 1);
      var d := DecodeAll(records, first.last + 1, done - 1);
      var rest := DecodeAll(records, d.end, count - done);
      if rest.ReadAll? {
        assert [first.error] + (d.errors + rest.errors) == ([first.error] + d.errors) + rest.errors;
      }
    }
  }

  lemma DecodeOneMore(records: seq<Record>, from: nat, done: nat, count: nat)
    requires from <= |records| && done < count && DecodeAll(records, from, done).ReadAll?
    ensures var d := DecodeAll(records, from, done);
            match Decode(records, d.end)
            case Read(e, last) => DecodeAll(records, from, done + 1) == ReadAll(d.errors + [e], last + 1)
            case Absent => DecodeAll(records, from, count) == AbsentAll
            case Malformed => DecodeAll(records, from, count) == MalformedAll
  {
    hide Decode;
    var d := DecodeAll(records, from, done);
    DecodeAllMore(records, from, done, count);
    DecodeAllMore(records, from, done, done + 1);
    if Decode(records, d.end).Read? {
      assert DecodeAll(records, d.end, 1) == ReadAll([Decode(records, d.end).error], Decode(records, d.end).last + 1);
    }
  }

  method ReadArguments(records: seq<Record>, from: nat, count: nat) returns (r: Option<seq<Argument>>)
    requires from <= |records|
    ensures r == if AreArguments(records, from, count) then Some(ArgumentsAt(records, from, count)) else None
  {
    var arguments: seq<Argument> := [];
    while |arguments| < count
      invariant |arguments| <= count && AreArguments(records, from, |arguments|)
      invariant arguments == ArgumentsAt(records, from, |arguments|)
    {
      var ref := from + |arguments|;
      if ref >= |records| || !records[ref].RuntimeErrorArgument? { return None; }
      arguments := arguments + [Argument(records[ref].argumentKind, records[ref].data)];
    }
    r := Some(arguments);
  }

  method DecodeError(records: seq<Record>, at: nat) returns (r: Decoded)
    ensures r == Decode(records, at)
    decreases |records| - at
  {
    hide DecodeAll;
    if at >= |records| { return Malformed; }
    if !records[at].RuntimeError? { return Absent; }
    var arguments := ReadArguments(records, at + 1, records[at].argumentCount);
    if arguments.None? { return Malformed; }
    var ref := at + |arguments.value|;
    ghost var from := ref + 1;
    var additional: seq<Error> := [];
    NoneToDecode(records, from);
    while |additional| < records[at].additionalCount
      invariant |additional| <= records[at].additionalCount
      invariant at <= ref < |records|
      invariant DecodeAll(records, from, |additional|) == ReadAll(additional, ref + 1)
    {
      DecodeOneMore(records, from, |additional|, records[at].additionalCount);
      var read := DecodeError(records, ref + 1);
      if !read.Read? { return read; }
      additional, ref := additional + [read.error], read.last;
    }
    r := Read(Error(records[at].kind, arguments.value, additional), ref);
  }

  lemma NoneToDecode(records: seq<Record>, at: nat)
    requires at <= |records|
    ensures DecodeAll(records, at, 0) == ReadAll([], at)
  {
  }

  // ---------------------------------------------------------------- round trip

  /** Every count fits in the byte that records it. */
  ghost predicate Small(e: Error)
    decreases e
  {
    |e.arguments| < 256 && |e.additional| < 256 && AllSmall(e.additional)
  }

  ghost predicate AllSmall(errors: seq<Error>)
    decreases errors
  {
    errors == [] || (Small(errors[0]) && AllSmall(errors[1..]))
  }

  lemma {:induction false} DecodesEncoded(records: seq<Record>, at: nat, e: Error, topLevel: bool)
    requires Small(e) && at + |Encode(e, topLevel)| <= |records|
    requires records[at..at + |Encode(e, topLevel)|] == Encode(e, topLevel)
    ensures Decode(records, at) == Read(e, at + |Encode(e, topLevel)| - 1)
    decreases e, 1
  {
    hide Decode, DecodeAll;
    var code, from := Encode(e, topLevel), at + 1 + |e.arguments|;
    assert records[at] == code[0];
    forall i | 0 <= i < |e.arguments| ensures records[at + 1 + i] == ArgumentRecords(e.arguments)[i] {
      assert records[at..at + |code|][1 + i] == code[1 + i];
    }
    assert records[from..from + |EncodeAll(e.additional)|] == EncodeAll(e.additional) by {
      assert code[1 + |e.arguments|..] == EncodeAll(e.additional);
      assert records[at..at + |code|][1 + |e.arguments|..] == records[from..at + |code|];
    }
    DecodesAllEncoded(records, from, e.additional);
    DecodeUnfolds(records, at, e.arguments);
  }

  lemma DecodeUnfolds(records: seq<Record>, at: nat, arguments: seq<Argument>)
    requires at < |records| && records[at].RuntimeError? && records[at].argumentCount == |arguments|
    requires at + 1 + |arguments| <= |records|
    requires forall i | 0 <= i < |arguments| :: records[at + 1 + i] == ArgumentRecords(arguments)[i]
    requires DecodeAll(records, at + 1 + |arguments|, records[at].additionalCount).ReadAll?
    ensures var d := DecodeAll(records, at + 1 + |arguments|, records[at].additionalCount);
            Decode(records, at) == Read(Error(records[at].kind, arguments, d.errors), d.end - 1)
  {
    forall i | at + 1 <= i < at + 1 + |arguments| ensures records[i].RuntimeErrorArgument? {
      assert records[at + 1 + (i - at - 1)] == ArgumentRecords(arguments)[i - at - 1];
    }
    forall i | 0 <= i < |arguments| ensures ArgumentsAt(records, at + 1, |arguments|)[i] == arguments[i] {
      assert records[at + 1 + i] == ArgumentRecords(arguments)[i];
    }
    assert ArgumentsAt(records, at + 1, |arguments|) == arguments;
  }

  lemma {:induction false} DecodesAllEncoded(records: seq<Record>, at: nat, errors: seq<Error>)
    requires AllSmall(errors) && at + |EncodeAll(errors)| <= |records|
    requires records[at..at + |EncodeAll(errors)|] == EncodeAll(errors)
    ensures DecodeAll(records, at, |errors|) == ReadAll(errors, at + |EncodeAll(errors)|)
    decreases errors, 0
  {
    hide Decode;
    if errors != [] {
      var first, rest := Encode(errors[0], false), EncodeAll(errors[1..]);
      assert records[at..at + |first|] == first by {
        assert records[at..at + |first + rest|][..|first|] == (first + rest)[..|first|];
      }
      assert records[at + |first|..at + |first| + |rest|] == rest by {
        assert records[at..at + |first + rest|][|first|..] == (first + rest)[|first|..];
      }
      DecodesEncoded(records, at, errors[0], false);
      DecodesAllEncoded(records, at + |first|, errors[1..]);
      assert [errors[0]] + errors[1..] == errors;
    }
  }

  lemma {:induction false} DecodedIsSmall(records: seq<Record>, at: nat)
    requires Decode(records, at).Read?
    ensures Small(Decode(records, at).error)
    decreases |records| - at, 1, 0
  {
    DecodedAllAreSmall(records, at + 1 + records[at].argumentCount, records[at].additionalCount);
  }

  lemma {:induction false} DecodedAllAreSmall(records: seq<Record>, at: nat, count: nat)
    requires at <= |records| && DecodeAll(records, at, count).ReadAll?
    ensures AllSmall(DecodeAll(records, at, count).errors)
    decreases |records| - at, 2, count
  {
    if count > 0 {
      DecodedIsSmall(records, at);
      DecodedAllAreSmall(records, Decode(records, at).last + 1, count - 1);
      var all := DecodeAll(records, at, count).errors;
      assert all[1..] == DecodeAll(records, Decode(records, at).last + 1, count - 1).errors;
    }
  }

  /** An error of any depth, written between any other records, is read back and ends on its own last
      record if and only if all its counts are less than 256. */
  lemma RoundTrip(before: seq<Record>, e: Error, topLevel: bool, after: seq<Record>)
    ensures Decode(before + Encode(e, topLevel) + after, |before|) ==
            Read(e, |before| + |Encode(e, topLevel)| - 1)
            <==> Small(e)
  {
    hide Decode, Small;
    var records := before + Encode(e, topLevel) + after;
    assert records[|before|..|before| + |Encode(e, topLevel)|] == Encode(e, topLevel);
    if Small(e) {
      DecodesEncoded(records, |before|, e, topLevel);
    }
    if Decode(records, |before|).Read? {
      DecodedIsSmall(records, |before|);
    }
  }

  /** An error with 256 arguments is written with a count of zero, and comes back without them. */
  lemma TooManyArguments()
    ensures var e := Error(0, seq(256, _ => Argument(0, 0)), []);
            !Small(e) && Decode(Encode(e, true), 0) != Read(e, |Encode(e, true)| - 1)
  {
    hide Decode, Encode;
    var e := Error(0, seq(256, _ => Argument(0, 0)), []);
    assert [] + Encode(e, true) + [] == Encode(e, true);
    RoundTrip([], e, true, []);
  }
}
