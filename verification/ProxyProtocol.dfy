/**
 The PROXY protocol reader of limbo/proxy_protocol.go. The buffered stream is the bytes still to read;
 a read past its end fails, as on a closed connection or an expired deadline.
 */
module ProxyProtocol {
  import opened Wrappers

  datatype Addr = TCPAddr(ip: IP, port: nat)

  /** An address: four or sixteen bytes. */
  datatype IP = V4(bytes: seq<byte>) | V6(bytes: seq<byte>)

  /** `net.ParseIP` and `strconv.Atoi`, about which nothing is assumed. */
  datatype Library = Library(parseIP: seq<byte> -> Option<IP>, atoi: seq<byte> -> Option<int>)

  /** What the header readers return: no header, a header with or without addresses, or an error. */
  datatype Header = NoHeader | Header(source: Option<Addr>, dest: Option<Addr>) | Malformed

  datatype Reading = Reading(header: Header, consumed: nat)

  // "PROXY ", "PROXY", "UNKNOWN", "TCP4", "TCP6"
  const V1_PREFIX: seq<byte> := [0x50, 0x52, 0x4F, 0x58, 0x59, 0x20]
  const PROXY: seq<byte> := [0x50, 0x52, 0x4F, 0x58, 0x59]
  const UNKNOWN: seq<byte> := [0x55, 0x4E, 0x4B, 0x4E, 0x4F, 0x57, 0x4E]
  const TCP4: seq<byte> := [0x54, 0x43, 0x50, 0x34]
  const TCP6: seq<byte> := [0x54, 0x43, 0x50, 0x36]
  const SIGNATURE: seq<byte> := [13, 10, 13, 10, 0, 13, 10, 0x51, 0x55, 0x49, 0x54, 10]
  const V1_MAX_LINE := 107

  // ------------------------------------------------------------------ version 1

  /** The length of the line up to and including the first newline, or zero. */
  function LineLength(s: seq<byte>): (n: nat)
    ensures n <= |s|
    ensures n > 0 ==> s[n - 1] == 10 && forall i :: 0 <= i < n - 1 ==> s[i] != 10
    ensures n == 0 ==> forall i :: 0 <= i < |s| ==> s[i] != 10
  {
    if s == [] then 0
    else if s[0] == 10 then 1
    else
      var n := LineLength(s[1..]);
      if n == 0 then 0 else n + 1
  }

  /** The length of the UTF-8 white space character at the start, or zero. */
  function SpaceLength(s: seq<byte>): (n: nat)
    ensures n <= |s|
  {
    if s == [] then 0
    else if 9 <= s[0] <= 13 || s[0] == 32 then 1
    else if |s| >= 2 && s[0] == 0xC2 && (s[1] == 0x85 || s[1] == 0xA0) then 2
    else if |s| >= 3 && IsWideSpace(s[0], s[1], s[2]) then 3
    else 0
  }

  /** U+1680, U+2000 to U+200A, U+2028, U+2029, U+202F, U+205F and U+3000. */
  predicate IsWideSpace(a: byte, b: byte, c: byte) {
    || (a == 0xE1 && b == 0x9A && c == 0x80)
    || (a == 0xE2 && b == 0x80 && (0x80 <= c <= 0x8A || c == 0xA8 || c == 0xA9 || c == 0xAF))
    || (a == 0xE2 && b == 0x81 && c == 0x9F)
    || (a == 0xE3 && b == 0x80 && c == 0x80)
  }

  predicate SpaceFree(s: seq<byte>) {
    forall i :: 0 <= i < |s| ==> SpaceLength(s[i..]) == 0
  }

  /** `strings.Fields`, with the field read so far. No white space character starts inside another character. */
  function FieldsFrom(s: seq<byte>, field: seq<byte>): seq<seq<byte>>
    decreases |s|
  {
    if s == [] then (if field == [] then [] else [field])
    else if SpaceLength(s) > 0 then (if field == [] then [] else [field]) + FieldsFrom(s[SpaceLength(s)..], [])
    else FieldsFrom(s[1..], field + [s[0]])
  }

  function Fields(s: seq<byte>): seq<seq<byte>> {
    FieldsFrom(s, [])
  }

  function ParseAddr(lib: Library, host: seq<byte>, port: seq<byte>): Option<Addr> {
    var ip :- lib.parseIP(host);
    var p :- lib.atoi(port);
    if p < 0 || p > 65535 then None else Some(TCPAddr(ip, p))
  }

  /** The fields of a line without its CRLF. */
  function InterpretFields(lib: Library, fields: seq<seq<byte>>): Header {
    if |fields| < 2 || fields[0] != PROXY then Malformed
    else if fields[1] == UNKNOWN then Header(None, None)
    else if |fields| != 6 || (fields[1] != TCP4 && fields[1] != TCP6) then Malformed
    else
      var source, dest := ParseAddr(lib, fields[2], fields[4]), ParseAddr(lib, fields[3], fields[5]);
      if source.None? || dest.None? then Malformed else Header(source, dest)
  }

  predicate EndsWithCRLF(line: seq<byte>) {
    |line| >= 2 && line[|line| - 2..] == [13, 10]
  }

  function ReadV1(lib: Library, s: seq<byte>): Reading {
    if |s| < |V1_PREFIX| then Reading(Malformed, 0)
    else if s[..|V1_PREFIX|] != V1_PREFIX then Reading(NoHeader, 0)
    else
      var n := LineLength(s);
      if n == 0 then Reading(Malformed, |s|)
      else if n > V1_MAX_LINE || !EndsWithCRLF(s[..n]) then Reading(Malformed, n)
      else Reading(InterpretFields(lib, Fields(s[..n - 2])), n)
  }

  // ------------------------------------------------------------------ version 2

  function BigEndian(hi: byte, lo: byte): nat {
    hi * 256 + lo
  }

  /** The addresses in the payload of a PROXY command. */
  function InterpretPayload(family: byte, p: seq<byte>): Header {
    if family == 0x11 then
      if |p| < 12 then Malformed
      else Header(Some(TCPAddr(V4(p[0..4]), BigEndian(p[8], p[9]))), Some(TCPAddr(V4(p[4..8]), BigEndian(p[10], p[11]))))
    else if family == 0x21 then
      if |p| < 36 then Malformed
      else Header(Some(TCPAddr(V6(p[0..16]), BigEndian(p[32], p[33]))), Some(TCPAddr(V6(p[16..32]), BigEndian(p[34], p[35]))))
    else if family == 0x00 then Header(None, None)
    else Malformed
  }

  function ReadV2(s: seq<byte>): Reading {
    if |s| < |SIGNATURE| then Reading(Malformed, 0)
    else if s[..|SIGNATURE|] != SIGNATURE then Reading(NoHeader, 0)
    else if |s| < 16 || s[12] / 16 != 2 then Reading(Malformed, 0)
    else
      var command, length := s[12] % 16, BigEndian(s[14], s[15]);
      if |s| - 16 < length then Reading(Malformed, |s|)
      else if command == 0 then Reading(Header(None, None), 16 + length)
      else if command != 1 then Reading(Malformed, 16 + length)
      else Reading(InterpretPayload(s[13], s[16..16 + length]), 16 + length)
  }

  function ReadHeader(lib: Library, s: seq<byte>): Reading {
    if s == [] then Reading(Malformed, 0)
    else if s[0] == 0x50 then ReadV1(lib, s)
    else if s[0] == 13 then ReadV2(s)
    else Reading(NoHeader, 0)
  }

  // ------------------------------------------------------------------ the connection

  /** `bufio.Reader`. */
  class Stream {
    var rest: seq<byte>

    constructor (bytes: seq<byte>)
      ensures rest == bytes
    {
      rest := bytes;
    }

    method Peek(n: nat) returns (r: Option<seq<byte>>)
      ensures r == if n <= |rest| then Some(rest[..n]) else None
    {
      return if n <= |rest| then Some(rest[..n]) else None;
    }

    method Discard(n: nat)
      requires n <= |rest|
      modifies this
      ensures rest == old(rest)[n..]
    {
      rest := rest[n..];
    }

    /** `ReadString('\n')`: without a newline everything is read before the error. */
    method ReadLine() returns (line: Option<seq<byte>>)
      modifies this
      ensures var n := LineLength(old(rest));
              if n > 0 then line == Some(old(rest)[..n]) && rest == old(rest)[n..] else line.None? && rest == []
    {
      var i := 0;
      while i < |rest|
        invariant 0 <= i <= |rest| && rest == old(rest)
        invariant forall k :: 0 <= k < i ==> rest[k] != 10
      {
        if rest[i] == 10 {
          line := Some(rest[..i + 1]);
          assert LineLength(rest) == i + 1;
          rest := rest[i + 1..];
          return;
        }
        i := i + 1;
      }
      rest := [];
      line := None;
    }

    /** `io.ReadFull`. */
    method ReadFull(n: nat) returns (r: Option<seq<byte>>)
      modifies this
      ensures if n <= |old(rest)| then r == Some(old(rest)[..n]) && rest == old(rest)[n..] else r.None? && rest == []
    {
      if n <= |rest| {
        r := Some(rest[..n]);
        rest := rest[n..];
      } else {
        r := None;
        rest := [];
      }
    }
  }

  method ReadV1Header(lib: Library, stream: Stream) returns (header: Header)
    modifies stream
    ensures var r := ReadV1(lib, old(stream.rest));
            header == r.header && r.consumed <= |old(stream.rest)| && stream.rest == old(stream.rest)[r.consumed..]
  {
    var prefix := stream.Peek(|V1_PREFIX|);
    if prefix.None? {
      return Malformed;
    }
    if prefix.value != V1_PREFIX {
      return NoHeader;
    }
    ghost var s := stream.rest;
    var read := stream.ReadLine();
    if read.None? {
      return Malformed;
    }
    var line := read.value;
    if |line| > V1_MAX_LINE || !EndsWithCRLF(line) {
      return Malformed;
    }
    assert line[..|line| - 2] == s[..|line| - 2];
    return InterpretFields(lib, Fields(line[..|line| - 2]));
  }

  method ReadV2Header(stream: Stream) returns (header: Header)
    modifies stream
    ensures var r := ReadV2(old(stream.rest));
            header == r.header && r.consumed <= |old(stream.rest)| && stream.rest == old(stream.rest)[r.consumed..]
  {
    var signature := stream.Peek(|SIGNATURE|);
    if signature.None? {
      return Malformed;
    }
    if signature.value != SIGNATURE {
      return NoHeader;
    }
    var fixed := stream.Peek(16);
    if fixed.None? || fixed.value[12] / 16 != 2 {
      return Malformed;
    }
    var h := fixed.value;
    var command, family, length := h[12] % 16, h[13], BigEndian(h[14], h[15]);
    ghost var s := stream.rest;
    stream.Discard(16);
    var payload := stream.ReadFull(length);
    if payload.None? {
      return Malformed;
    }
    assert s[16..][..length] == s[16..16 + length] && s[16..][length..] == s[16 + length..];
    if command == 0 {
      return Header(None, None);
    }
    if command != 1 {
      return Malformed;
    }
    return InterpretPayload(family, payload.value);
  }

  datatype HeaderError = Unreadable | NoProxyHeader | Untrusted

  /** What the first use of a connection settles for good. */
  datatype Settled = Settled(error: Option<HeaderError>, source: Option<Addr>, dest: Option<Addr>)

  function Settle(lib: Library, required: bool, trusted: bool, s: seq<byte>): Settled {
    match ReadHeader(lib, s).header
    case Malformed => Settled(Some(Unreadable), None, None)
    case NoHeader => Settled(if required then Some(NoProxyHeader) else None, None, None)
    case Header(source, dest) => if !trusted then Settled(Some(Untrusted), None, None) else Settled(None, source, dest)
  }

  /** `proxyProtocolConn`. */
  class Conn {
    const lib: Library
    const stream: Stream
    const required: bool
    const trusted: bool
    const peer: Addr      // the wrapped connection's RemoteAddr
    const local: Addr     // and LocalAddr
    var once: bool
    var settled: Settled
    ghost const received: seq<byte>

    constructor (lib: Library, stream: Stream, required: bool, trusted: bool, peer: Addr, local: Addr)
      ensures Valid() && !once && this.lib == lib && this.stream == stream && this.required == required
      ensures this.trusted == trusted && this.peer == peer && this.local == local && received == stream.rest
    {
      this.lib, this.stream, this.required, this.trusted := lib, stream, required, trusted;
      this.peer, this.local := peer, local;
      once := false;
      settled := Settled(None, None, None);
      received := stream.rest;
    }

    /** Before the first use nothing was read; afterwards the outcome is the one `Settle` gives. */
    ghost predicate Valid()
      reads this, stream
    {
      if once then settled == Settle(lib, required, trusted, received)
      else stream.rest == received && settled == Settled(None, None, None)
    }

    /** `ensureHeader`: the header is read exactly once, and only as far as it reaches. */
    method ensureHeader() returns (error: Option<HeaderError>)
      requires Valid()
      modifies this, stream
      ensures Valid() && once && error == settled.error == Settle(lib, required, trusted, received).error
      ensures old(once) ==> stream.rest == old(stream.rest) && settled == old(settled)
      ensures !old(once) ==> var r := ReadHeader(lib, received); r.consumed <= |received| && stream.rest == received[r.consumed..]
    {
      if !once {
        once := true;
        var first := stream.Peek(1);
        var header := Malformed;
        if first.Some? {
          if first.value[0] == 0x50 {
            header := ReadV1Header(lib, stream);
          } else if first.value[0] == 13 {
            header := ReadV2Header(stream);
          } else {
            header := NoHeader;
          }
        }
        match header {
          case Malformed =>
            settled := Settled(Some(Unreadable), None, None);
          case NoHeader =>
            if required {
              settled := Settled(Some(NoProxyHeader), None, None);
            }
          case Header(source, dest) =>
            if !trusted {
              settled := Settled(Some(Untrusted), None, None);
            } else {
              settled := Settled(None, source, dest);
            }
        }
      }
      return settled.error;
    }

    method RemoteAddr() returns (addr: Addr)
      requires Valid()
      modifies this, stream
      ensures Valid() && once
      ensures addr == RemoteOf(Settle(lib, required, trusted, received), peer)
    {
      var error := ensureHeader();
      if error.None? && settled.source.Some? {
        return settled.source.value;
      }
      return peer;
    }

    method LocalAddr() returns (addr: Addr)
      requires Valid()
      modifies this, stream
      ensures Valid() && once
      ensures addr == LocalOf(Settle(lib, required, trusted, received), local)
    {
      var error := ensureHeader();
      if error.None? && settled.dest.Some? {
        return settled.dest.value;
      }
      return local;
    }
  }

  function RemoteOf(s: Settled, peer: Addr): Addr {
    if s.error.None? && s.source.Some? then s.source.value else peer
  }

  function LocalOf(s: Settled, local: Addr): Addr {
    if s.error.None? && s.dest.Some? then s.dest.value else local
  }

  // ------------------------------------------------------------------ who is believed

  /** Whatever an untrusted peer sends, its connection keeps its own addresses. */
  lemma UntrustedHeaderIsIgnored(lib: Library, required: bool, s: seq<byte>, peer: Addr, local: Addr)
    ensures RemoteOf(Settle(lib, required, false, s), peer) == peer
    ensures LocalOf(Settle(lib, required, false, s), local) == local
    ensures ReadHeader(lib, s).header.Header? ==> Settle(lib, required, false, s).error == Some(Untrusted)
  {
  }

  /** A trusted peer's address is believed exactly when its header is well formed and names one. */
  lemma TrustedHeaderIsBelieved(lib: Library, required: bool, s: seq<byte>, peer: Addr)
    ensures var h := ReadHeader(lib, s).header;
            RemoteOf(Settle(lib, required, true, s), peer)
            == if h.Header? && h.source.Some? then h.source.value else peer
  {
  }

  /** Without a header nothing is consumed: when the first byte or the whole prefix does not match. */
  lemma NoHeaderReadsNothing(lib: Library, s: seq<byte>)
    ensures var r := ReadHeader(lib, s);
            && r.consumed <= |s|
            && (r.header.NoHeader? ==> r.consumed == 0)
            && (r.header.NoHeader? <==>
                  s != [] && (s[0] == 0x50 ==> |s| >= 6 && s[..6] != V1_PREFIX)
                  && (s[0] == 13 ==> |s| >= 12 && s[..12] != SIGNATURE))
  {
  }

  // ------------------------------------------------------------------ printing headers

  function PrintV2(command: byte, family: byte, payload: seq<byte>): seq<byte>
    requires command < 16 && |payload| < 65536
  {
    SIGNATURE + [0x20 + command, family, |payload| / 256, |payload| % 256] + payload
  }

  predicate IsAddr(a: Addr) {
    a.port < 65536 && |a.ip.bytes| == (if a.ip.V4? then 4 else 16)
  }

  function PrintPort(p: nat): seq<byte>
    requires p < 65536
  {
    [p / 256, p % 256]
  }

  /** Two addresses of one kind and any further type-length-value bytes. */
  function PrintAddrs(source: Addr, dest: Addr, tlvs: seq<byte>): seq<byte>
    requires IsAddr(source) && IsAddr(dest)
  {
    source.ip.bytes + dest.ip.bytes + PrintPort(source.port) + PrintPort(dest.port) + tlvs
  }

  function FamilyOf(a: Addr): byte {
    if a.ip.V4? then 0x11 else 0x21
  }

  lemma PortsRead(p: nat)
    requires p < 65536
    ensures BigEndian(PrintPort(p)[0], PrintPort(p)[1]) == p
  {
  }

  lemma PayloadReads(source: Addr, dest: Addr, tlvs: seq<byte>)
    requires IsAddr(source) && IsAddr(dest) && source.ip.V4? == dest.ip.V4?
    ensures InterpretPayload(FamilyOf(source), PrintAddrs(source, dest, tlvs)) == Header(Some(source), Some(dest))
  {
    PortsRead(source.port);
    PortsRead(dest.port);
    PayloadSlices(source.ip.bytes, dest.ip.bytes, PrintPort(source.port), PrintPort(dest.port), tlvs);
  }

  lemma PayloadSlices(a: seq<byte>, b: seq<byte>, x: seq<byte>, y: seq<byte>, tlvs: seq<byte>)
    requires |a| == |b| && |x| == |y| == 2
    ensures var p, n := a + b + x + y + tlvs, |a|;
            && |p| >= 2 * n + 4
            && p[0..n] == a && p[n..2 * n] == b
            && p[2 * n] == x[0] && p[2 * n + 1] == x[1] && p[2 * n + 2] == y[0] && p[2 * n + 3] == y[1]
  {
    var p, n := a + b + x + y + tlvs, |a|;
    assert p == a + (b + (x + (y + tlvs)));
    assert p[n..] == b + (x + (y + tlvs));
    assert p[2 * n..] == x + (y + tlvs);
  }

  lemma V2Frame(command: byte, family: byte, payload: seq<byte>, rest: seq<byte>)
    requires command < 16 && |payload| < 65536
    ensures var s := PrintV2(command, family, payload) + rest;
            && |s| >= 16 + |payload| && s[..12] == SIGNATURE && s[0] == 13
            && s[12] == 0x20 + command && s[13] == family && BigEndian(s[14], s[15]) == |payload|
            && s[16..16 + |payload|] == payload && s[16 + |payload|..] == rest
  {
    var s := PrintV2(command, family, payload) + rest;
    var head := [0x20 + command, family, |payload| / 256, |payload| % 256];
    assert s[..12] == SIGNATURE;
    assert s[12..16] == head;
    assert s[12] == head[0] && s[13] == head[1] && s[14] == head[2] && s[15] == head[3];
    assert s[0] == SIGNATURE[0];
  }

  /** A printed version 2 header reads back its addresses and leaves exactly what follows it, whatever its TLVs. */
  lemma V2RoundTrip(lib: Library, source: Addr, dest: Addr, tlvs: seq<byte>, rest: seq<byte>)
    requires IsAddr(source) && IsAddr(dest) && source.ip.V4? == dest.ip.V4?
    requires |PrintAddrs(source, dest, tlvs)| < 65536
    ensures var printed := PrintV2(1, FamilyOf(source), PrintAddrs(source, dest, tlvs));
            && ReadHeader(lib, printed + rest) == Reading(Header(Some(source), Some(dest)), |printed|)
            && |printed| == 16 + |PrintAddrs(source, dest, tlvs)|
            && (printed + rest)[|printed|..] == rest
  {
    V2Frame(1, FamilyOf(source), PrintAddrs(source, dest, tlvs), rest);
    PayloadReads(source, dest, tlvs);
  }

  /** A LOCAL command or an unspecified family is a header without addresses. */
  lemma V2WithoutAddresses(lib: Library, command: byte, family: byte, payload: seq<byte>, rest: seq<byte>)
    requires |payload| < 65536 && (command == 0 || (command == 1 && family == 0))
    ensures ReadHeader(lib, PrintV2(command, family, payload) + rest) == Reading(Header(None, None), 16 + |payload|)
  {
    V2Frame(command, family, payload, rest);
  }

  /** The other way: whatever version 2 bytes yield addresses are the printed form of those addresses. */
  lemma V2AcceptsOnlyPrinted(lib: Library, s: seq<byte>) returns (tlvs: seq<byte>)
    requires s != [] && s[0] == 13
    requires ReadHeader(lib, s).header.Header? && ReadHeader(lib, s).header.source.Some?
    ensures var r := ReadHeader(lib, s);
            && r.header.dest.Some? && IsAddr(r.header.source.value) && IsAddr(r.header.dest.value)
            && |PrintAddrs(r.header.source.value, r.header.dest.value, tlvs)| < 65536
            && r.consumed <= |s|
            && s[..r.consumed] == PrintV2(1, FamilyOf(r.header.source.value),
                                          PrintAddrs(r.header.source.value, r.header.dest.value, tlvs))
  {
    var r := ReadHeader(lib, s);
    var length := BigEndian(s[14], s[15]);
    var p := s[16..16 + length];
    var n := if s[13] == 0x11 then 4 else 16;
    tlvs := p[2 * n + 4..];
    PayloadIsPrinted(s[13], p);
    assert s[..16] == SIGNATURE + [0x21, s[13], s[14], s[15]];
    assert s[..16 + length] == s[..16] + p;
  }

  lemma PayloadIsPrinted(family: byte, p: seq<byte>)
    requires InterpretPayload(family, p).Header? && InterpretPayload(family, p).source.Some?
    ensures var h := InterpretPayload(family, p); var n := if family == 0x11 then 4 else 16;
            && h.dest.Some? && IsAddr(h.source.value) && IsAddr(h.dest.value) && FamilyOf(h.source.value) == family
            && |p| >= 2 * n + 4 && p == PrintAddrs(h.source.value, h.dest.value, p[2 * n + 4..])
  {
    var n := if family == 0x11 then 4 else 16;
    PortIsPrinted(p, 2 * n);
    PortIsPrinted(p, 2 * n + 2);
    FiveParts(p, n, 2 * n, 2 * n + 2, 2 * n + 4);
  }

  lemma PortIsPrinted(p: seq<byte>, k: nat)
    requires k + 2 <= |p|
    ensures p[k..k + 2] == PrintPort(BigEndian(p[k], p[k + 1]))
  {
    PortBytes(p[k], p[k + 1]);
    assert p[k..k + 2] == [p[k], p[k + 1]];
  }

  lemma PortBytes(hi: byte, lo: byte)
    ensures PrintPort(BigEndian(hi, lo)) == [hi, lo]
  {
  }

  lemma FiveParts(p: seq<byte>, a: nat, b: nat, c: nat, d: nat)
    requires a <= b <= c <= d <= |p|
    ensures p == p[0..a] + p[a..b] + p[b..c] + p[c..d] + p[d..]
  {
  }

  /** The fields of a line, separated by single spaces. */
  function JoinFields(fields: seq<seq<byte>>): seq<byte>
    requires |fields| > 0
  {
    if |fields| == 1 then fields[0] else fields[0] + ([32] + JoinFields(fields[1..]))
  }

  predicate IsField(f: seq<byte>) {
    f != [] && SpaceFree(f)
  }

  /** White space never spans the end of a field and an ASCII byte behind it. */
  lemma NoSpaceAcross(f: seq<byte>, rest: seq<byte>)
    requires f != [] && SpaceLength(f) == 0 && (rest == [] || rest[0] < 0x80)
    ensures SpaceLength(f + rest) == 0
  {
    var s := f + rest;
    assert s[0] == f[0];
    assert |s| >= 2 ==> s[1] == if |f| >= 2 then f[1] else rest[0];
    assert |s| >= 3 && |f| >= 2 ==> s[2] == if |f| >= 3 then f[2] else rest[0];
  }

  lemma SpaceFreeTail(f: seq<byte>)
    requires f != [] && SpaceFree(f)
    ensures SpaceLength(f) == 0 && SpaceFree(f[1..])
  {
    assert f[0..] == f;
    forall i | 0 <= i < |f[1..]|
      ensures SpaceLength(f[1..][i..]) == 0
    {
      assert f[1..][i..] == f[i + 1..];
    }
  }

  lemma {:induction false} OneFieldReads(f: seq<byte>, rest: seq<byte>, field: seq<byte>)
    requires SpaceFree(f) && (rest == [] || rest[0] < 0x80)
    ensures FieldsFrom(f + rest, field) == FieldsFrom(rest, field + f)
    decreases |f|
  {
    if f == [] {
      assert f + rest == rest && field + f == field;
    } else {
      assert (f + rest)[0] == f[0] && (f + rest)[1..] == f[1..] + rest;
      SpaceFreeTail(f);
      NoSpaceAcross(f, rest);
      OneFieldReads(f[1..], rest, field + [f[0]]);
      assert field + [f[0]] + f[1..] == field + f;
    }
  }

  /** `strings.Fields` undoes joining. */
  lemma {:induction false} FieldsInvertJoin(fields: seq<seq<byte>>)
    requires |fields| > 0 && forall i :: 0 <= i < |fields| ==> IsField(fields[i])
    ensures Fields(JoinFields(fields)) == fields
    decreases |fields|
  {
    var f := fields[0];
    if |fields| == 1 {
      OneFieldReads(f, [], []);
      assert f + [] == f && [] + f == f && fields == [f];
    } else {
      var rest := JoinFields(fields[1..]);
      FieldsInvertJoin(fields[1..]);
      OneFieldReads(f, [32] + rest, []);
      assert [] + f == f && ([32] + rest)[0] == 32 && ([32] + rest)[1..] == rest;
      assert fields == [f] + fields[1..];
    }
  }

  lemma FieldHasNoNewline(f: seq<byte>)
    requires SpaceFree(f)
    ensures forall i :: 0 <= i < |f| ==> f[i] != 10
  {
    forall i | 0 <= i < |f|
      ensures f[i] != 10
    {
      assert SpaceLength(f[i..]) == 0;
    }
  }

  lemma {:induction false} JoinHasNoNewline(fields: seq<seq<byte>>)
    requires |fields| > 0 && forall i :: 0 <= i < |fields| ==> IsField(fields[i])
    ensures forall i :: 0 <= i < |JoinFields(fields)| ==> JoinFields(fields)[i] != 10
    decreases |fields|
  {
    FieldHasNoNewline(fields[0]);
    if |fields| > 1 {
      JoinHasNoNewline(fields[1..]);
    }
  }

  /** A version 1 line: `PROXY TCP4 source dest sourcePort destPort` and CRLF. */
  function V1Fields(family: seq<byte>, src: seq<byte>, dst: seq<byte>, sport: seq<byte>, dport: seq<byte>): seq<seq<byte>> {
    [PROXY, family, src, dst, sport, dport]
  }

  function PrintV1(fields: seq<seq<byte>>): seq<byte>
    requires |fields| > 0
  {
    JoinFields(fields) + [13, 10]
  }

  lemma LineReads(line: seq<byte>, rest: seq<byte>)
    requires forall i :: 0 <= i < |line| ==> line[i] != 10
    ensures LineLength(line + [13, 10] + rest) == |line| + 2
  {
    var s := line + [13, 10] + rest;
    var n := LineLength(s);
    assert s[|line|] == 13 && s[|line| + 1] == 10;
    assert forall i :: 0 <= i < |line| ==> s[i] == line[i];
  }

  /**
   A printed version 1 line reads back whatever addresses the library reads from its texts, and leaves
   exactly what follows its CRLF.
   */
  lemma V1RoundTrip(lib: Library, family: seq<byte>, src: seq<byte>, dst: seq<byte>, sport: seq<byte>, dport: seq<byte>,
                    rest: seq<byte>)
    requires family == TCP4 || family == TCP6
    requires IsField(src) && IsField(dst) && IsField(sport) && IsField(dport)
    requires ParseAddr(lib, src, sport).Some? && ParseAddr(lib, dst, dport).Some?
    requires |PrintV1(V1Fields(family, src, dst, sport, dport))| <= V1_MAX_LINE
    ensures var printed := PrintV1(V1Fields(family, src, dst, sport, dport));
            && ReadHeader(lib, printed + rest)
               == Reading(Header(ParseAddr(lib, src, sport), ParseAddr(lib, dst, dport)), |printed|)
            && (printed + rest)[|printed|..] == rest
  {
    var fields := V1Fields(family, src, dst, sport, dport);
    var line := JoinFields(fields);
    var s := PrintV1(fields) + rest;
    FieldsInvertJoin(fields);
    JoinHasNoNewline(fields);
    LineReads(line, rest);
    var tail := JoinFields(fields[1..]);
    assert line == PROXY + ([32] + tail);
    assert s[..6] == V1_PREFIX;
    assert s[..|line|] == line && s[|line|..|line| + 2] == [13, 10];
    assert s[..|line| + 2][|line|..] == [13, 10];
    assert fields[1] != UNKNOWN by {
      assert |fields[1]| == 4 && |UNKNOWN| == 7;
    }
  }
}
