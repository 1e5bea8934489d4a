/**
 The destination header that precedes a relayed byte stream: a version byte, the
 host length and the host, and the port, integers in network byte order.
 */
module Framing {
  import opened Wrappers
  import opened Utf8

  type Port = n: int | 0 <= n < 0x1_0000

  const VERSION: Byte := 1
  const MAX_HOST_LEN: nat := 255

  datatype FramingError = UnsupportedVersion(version: Byte) | HostTooLong(len: nat) | InvalidUtf8

  function ToBE(n: Port): Bytes {
    [n / 256, n % 256]
  }

  function FromBE(hi: Byte, lo: Byte): Port {
    256 * hi + lo
  }

  // ------------------------------------------------------------------ encode

  /** The header of a host short enough to have one. */
  function Header(host: Bytes, port: Port): Bytes
    requires |host| <= MAX_HOST_LEN
  {
    [VERSION] + ToBE(|host|) + host + ToBE(port)
  }

  method EncodeDestination(host: Bytes, port: Port) returns (r: Result<Bytes, FramingError>)
    requires Valid(host)
    ensures r.Ok? <==> |host| <= MAX_HOST_LEN
    ensures r.Ok? ==> r.value == Header(host, port)
    ensures r.Err? ==> r.error == HostTooLong(|host|)
  {
    if |host| > MAX_HOST_LEN {
      return Err(HostTooLong(|host|));
    }
    var buf: Bytes := [];
    buf := buf + [VERSION];
    buf := buf + ToBE(|host|);
    buf := buf + host;
    buf := buf + ToBE(port);
    return Ok(buf);
  }

  // ------------------------------------------------------------------ decode

  datatype Destination = Destination(host: Bytes, port: Port)
  datatype Decoded = Decoded(dest: Destination, consumed: nat)

  /** `Ok(None)` asks for more bytes. */
  function DecodeDestination(buf: Bytes): Result<Option<Decoded>, FramingError> {
    if buf == [] then Ok(None)
    else if buf[0] != VERSION then Err(UnsupportedVersion(buf[0]))
    else if |buf| < 3 then Ok(None)
    else
      var hostLen: int := FromBE(buf[1], buf[2]);
      if hostLen > MAX_HOST_LEN then Err(HostTooLong(hostLen))
      else if |buf| < 3 + hostLen + 2 then Ok(None)
      else if !Valid(buf[3..3 + hostLen]) then Err(InvalidUtf8)
      else Ok(Some(Decoded(Destination(buf[3..3 + hostLen], FromBE(buf[3 + hostLen], buf[3 + hostLen + 1])), 3 + hostLen + 2)))
  }

  lemma BERoundTrip(n: Port)
    ensures FromBE(ToBE(n)[0], ToBE(n)[1]) == n
  {}

  lemma BEInverse(hi: Byte, lo: Byte)
    ensures ToBE(FromBE(hi, lo)) == [hi, lo]
  {}

  lemma HeaderShape(host: Bytes, port: Port, rest: Bytes)
    requires |host| <= MAX_HOST_LEN
    ensures var buf := Header(host, port) + rest;
            && |buf| == |host| + 5 + |rest| && buf[0] == VERSION
            && [buf[1], buf[2]] == ToBE(|host|) && buf[3..3 + |host|] == host
            && [buf[3 + |host|], buf[4 + |host|]] == ToBE(port)
  {}

  /** Decoding inverts encoding, whatever bytes follow the header. */
  lemma RoundTrip(host: Bytes, port: Port, rest: Bytes)
    requires Valid(host) && |host| <= MAX_HOST_LEN
    ensures DecodeDestination(Header(host, port) + rest)
         == Ok(Some(Decoded(Destination(host, port), |Header(host, port)|)))
  {
    HeaderShape(host, port, rest);
    BERoundTrip(|host|);
    BERoundTrip(port);
  }

  /** Every proper prefix of a header asks for more. */
  lemma ProperPrefixNeedsMore(host: Bytes, port: Port, n: nat)
    requires |host| <= MAX_HOST_LEN && n < |Header(host, port)|
    ensures DecodeDestination(Header(host, port)[..n]) == Ok(None)
  {
    HeaderShape(host, port, []);
    assert Header(host, port) + [] == Header(host, port);
    BERoundTrip(|host|);
  }

  /** An answer other than "more" is final: no further bytes change it. */
  lemma AnswerIsStable(buf: Bytes, more: Bytes)
    requires DecodeDestination(buf) != Ok(None)
    ensures DecodeDestination(buf + more) == DecodeDestination(buf)
  {
    if |buf| >= 3 {
      var hostLen: int := FromBE(buf[1], buf[2]);
      if |buf| >= 3 + hostLen + 2 {
        assert (buf + more)[3..3 + hostLen] == buf[3..3 + hostLen];
      }
    }
  }

  /** The encoding is canonical: what was decoded encodes to the very bytes consumed. */
  lemma Canonical(buf: Bytes)
    requires DecodeDestination(buf).Ok? && DecodeDestination(buf).value.Some?
    ensures var d := DecodeDestination(buf).value.value;
            && Valid(d.dest.host) && |d.dest.host| <= MAX_HOST_LEN && d.consumed <= |buf|
            && Header(d.dest.host, d.dest.port) == buf[..d.consumed]
  {
    var d := DecodeDestination(buf).value.value;
    BEInverse(buf[1], buf[2]);
    BEInverse(buf[d.consumed - 2], buf[d.consumed - 1]);
    assert Header(d.dest.host, d.dest.port) == buf[..d.consumed];
  }

  /** Asking for more is never in vain: some continuation completes or refutes the header. */
  lemma NeedMoreIsHonest(buf: Bytes)
    requires DecodeDestination(buf) == Ok(None)
    ensures exists more :: DecodeDestination(buf + more) != Ok(None)
  {
    var pad: Bytes := seq(512, _ => 0);
    if |buf| < 3 {
      assert DecodeDestination(buf + pad) != Ok(None) by {
        if |buf| == 0 {
          assert (buf + pad)[0] == 0;
        } else if |buf| == 1 {
          assert (buf + pad)[1] == 0 && (buf + pad)[2] == 0;
        } else {
          assert (buf + pad)[1] == buf[1] && (buf + pad)[2] == 0;
        }
      }
    } else {
      assert (buf + pad)[1] == buf[1] && (buf + pad)[2] == buf[2];
      assert DecodeDestination(buf + pad) != Ok(None);
    }
  }

  // ------------------------------------------------------------------ stream

  datatype StreamError = Bad(error: FramingError) | UnexpectedEof

  /** A byte stream that ends after `data`. */
  class Reader {
    const data: Bytes
    var pos: nat

    constructor (data: Bytes)
      ensures this.data == data && pos == 0
    {
      this.data, pos := data, 0;
    }

    ghost predicate InRange()
      reads this
    {
      pos <= |data|
    }

    ghost function Rest(): Bytes
      requires InRange()
      reads this
    {
      data[pos..]
    }

    /** Reads exactly `n` bytes, or drains the stream and fails. */
    method ReadExact(n: nat) returns (r: Result<Bytes, StreamError>)
      requires InRange()
      modifies this
      ensures InRange()
      ensures r.Ok? <==> old(pos) + n <= |data|
      ensures r.Ok? ==> pos == old(pos) + n && r.value == data[old(pos)..pos]
      ensures r.Err? ==> r.error == UnexpectedEof && pos == |data|
    {
      if n > |data| - pos {
        pos := |data|;
        return Err(UnexpectedEof);
      }
      r := Ok(data[pos..pos + n]);
      pos := pos + n;
    }
  }

  /** What reading a header off a finite stream answers. */
  function StreamAnswer(s: Bytes): Result<Destination, StreamError> {
    match DecodeDestination(s)
    case Err(e) => Err(Bad(e))
    case Ok(Some(d)) => Ok(d.dest)
    case Ok(None) =>
      // A stream is refused for its host before its missing port is noticed.
      if |s| >= 3 && |s| >= 3 + FromBE(s[1], s[2]) && !Valid(s[3..3 + FromBE(s[1], s[2])])
      then Err(Bad(InvalidUtf8)) else Err(UnexpectedEof)
  }

  method ReadDestination(r: Reader) returns (res: Result<Destination, StreamError>)
    requires r.InRange()
    modifies r
    ensures r.InRange()
    ensures r.pos >= old(r.pos) && res == StreamAnswer(old(r.Rest()))
    ensures res.Ok? ==> r.pos == old(r.pos) + DecodeDestination(old(r.Rest())).value.value.consumed
  {
    ghost var s := r.Rest();
    var version := r.ReadExact(1);
    if version.Err? {
      return Err(version.error);
    }
    if version.value[0] != VERSION {
      return Err(Bad(UnsupportedVersion(version.value[0])));
    }
    var len := r.ReadExact(2);
    if len.Err? {
      return Err(len.error);
    }
    var hostLen: int := FromBE(len.value[0], len.value[1]);
    assert s[1] == len.value[0] && s[2] == len.value[1];
    if hostLen > MAX_HOST_LEN {
      return Err(Bad(HostTooLong(hostLen)));
    }
    var host := r.ReadExact(hostLen);
    if host.Err? {
      return Err(host.error);
    }
    assert host.value == s[3..3 + hostLen];
    if !Valid(host.value) {
      return Err(Bad(InvalidUtf8));
    }
    var port := r.ReadExact(2);
    if port.Err? {
      return Err(port.error);
    }
    assert s[3 + hostLen] == port.value[0] && s[3 + hostLen + 1] == port.value[1];
    return Ok(Destination(host.value, FromBE(port.value[0], port.value[1])));
  }

  /** On every stream that begins with a complete header the two decoders agree. */
  lemma DecodersAgree(host: Bytes, port: Port, rest: Bytes)
    requires Valid(host) && |host| <= MAX_HOST_LEN
    ensures StreamAnswer(Header(host, port) + rest) == Ok(Destination(host, port))
    ensures forall s :: StreamAnswer(s).Ok? <==> DecodeDestination(s).Ok? && DecodeDestination(s).value.Some?
  {
    RoundTrip(host, port, rest);
  }

  class Writer {
    var written: Bytes

    constructor ()
      ensures written == []
    {
      written := [];
    }

    method WriteAll(bytes: Bytes)
      modifies this
      ensures written == old(written) + bytes
    {
      written := written + bytes;
    }
  }

  /**
   An ingress relay reads the client's header and writes it to the next hop:
   the next hop receives exactly the bytes taken from the client, and nothing
   when the header is refused.
   */
  method ForwardHeader(client: Reader, next: Writer) returns (res: Result<Destination, StreamError>)
    requires client.InRange()
    modifies client, next
    ensures client.InRange() && client.pos >= old(client.pos)
    ensures res == StreamAnswer(old(client.Rest()))
    ensures res.Ok? ==> next.written == old(next.written) + client.data[old(client.pos)..client.pos]
    ensures res.Err? ==> next.written == old(next.written)
  {
    ghost var s, start := client.Rest(), client.pos;
    res := ReadDestination(client);
    if res.Ok? {
      Canonical(s);
      assert s[..client.pos - start] == client.data[start..client.pos];
      var buf := EncodeDestination(res.value.host, res.value.port);
      next.WriteAll(buf.value);
    }
  }
}
