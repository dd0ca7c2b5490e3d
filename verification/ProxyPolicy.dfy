/**
 What a connection of limbo/proxy_protocol.go makes of the bytes it receives: which streams have no header, which have a
 well-formed one, and the error that each policy gives them.
 */
module ProxyPolicy {
  import opened Wrappers
  import opened ProxyProtocol

  // ------------------------------------------------------------------ the three kinds of streams

  /** The first byte, or the whole prefix, belongs to neither version. */
  predicate IsHeaderless(s: seq<byte>) {
    && s != []
    && (s[0] == 0x50 ==> |s| >= 6 && s[..6] != V1_PREFIX)
    && (s[0] == 13 ==> |s| >= 12 && s[..12] != SIGNATURE)
  }

  predicate IsAddrText(lib: Library, host: seq<byte>, port: seq<byte>) {
    lib.parseIP(host).Some? && lib.atoi(port).Some? && 0 <= lib.atoi(port).value <= 65535
  }

  /** "PROXY UNKNOWN" and anything, or "PROXY", a family, two addresses and two ports. */
  predicate AreV1Fields(lib: Library, fields: seq<seq<byte>>) {
    && |fields| >= 2 && fields[0] == PROXY
    && (fields[1] == UNKNOWN
        || (&& |fields| == 6 && (fields[1] == TCP4 || fields[1] == TCP6)
            && IsAddrText(lib, fields[2], fields[4]) && IsAddrText(lib, fields[3], fields[5])))
  }

  /** The first line has `n` bytes. */
  predicate FirstLine(s: seq<byte>, n: nat) {
    1 <= n <= |s| && s[n - 1] == 10 && forall i :: 0 <= i < n - 1 ==> s[i] != 10
  }

  /** A version 1 header of `n` bytes. */
  predicate IsV1(lib: Library, s: seq<byte>, n: nat) {
    && |s| >= 6 && s[..6] == V1_PREFIX
    && FirstLine(s, n) && 2 <= n <= 107 && s[n - 2] == 13
    && AreV1Fields(lib, Fields(s[..n - 2]))
  }

  /** Two bytes in network order. */
  function Word(high: int, low: int): int {
    256 * high + low
  }

  /** A version 2 header of `n` bytes: LOCAL with any payload, or PROXY without addresses or with both. */
  predicate IsV2(s: seq<byte>, n: nat) {
    && 16 <= n <= |s| && s[..12] == SIGNATURE && n == 16 + Word(s[14], s[15])
    && (s[12] == 0x20
        || (s[12] == 0x21 && (s[13] == 0 || (s[13] == 0x11 && n >= 28) || (s[13] == 0x21 && n >= 52))))
  }

  ghost predicate IsWellFormed(lib: Library, s: seq<byte>) {
    exists n: nat :: IsV1(lib, s, n) || IsV2(s, n)
  }

  // ------------------------------------------------------------------ the readers

  lemma FieldsAreInterpreted(lib: Library, fields: seq<seq<byte>>)
    ensures InterpretFields(lib, fields) == Malformed || InterpretFields(lib, fields).Header?
    ensures InterpretFields(lib, fields).Header? <==> AreV1Fields(lib, fields)
    ensures AreV1Fields(lib, fields) ==>
              InterpretFields(lib, fields)
              == if fields[1] == UNKNOWN then Header(None, None)
                 else Header(Some(TCPAddr(lib.parseIP(fields[2]).value, lib.atoi(fields[4]).value)),
                             Some(TCPAddr(lib.parseIP(fields[3]).value, lib.atoi(fields[5]).value)))
  {
  }

  lemma FirstLineIs(s: seq<byte>, n: nat)
    ensures n > 0 ==> (FirstLine(s, n) <==> LineLength(s) == n)
  {
    if FirstLine(s, n) {
      var m := LineLength(s);
      assert m > 0;
      assert !(m < n) && !(n < m);
    }
  }

  lemma CRLFIs(s: seq<byte>, n: nat)
    requires FirstLine(s, n)
    ensures EndsWithCRLF(s[..n]) <==> n >= 2 && s[n - 2] == 13
  {
    if n >= 2 {
      assert s[..n][n - 2..] == [s[n - 2], s[n - 1]];
    }
  }

  lemma V1IsRead(lib: Library, s: seq<byte>)
    requires |s| >= 6 && s[..6] == V1_PREFIX
    ensures !ReadV1(lib, s).header.NoHeader?
    ensures ReadV1(lib, s).header.Header? <==> exists n: nat :: IsV1(lib, s, n)
    ensures forall n: nat :: IsV1(lib, s, n) ==> ReadV1(lib, s) == Reading(InterpretFields(lib, Fields(s[..n - 2])), n)
  {
    var n := LineLength(s);
    FirstLineIs(s, n);
    if n > 0 {
      CRLFIs(s, n);
      if n >= 2 {
        FieldsAreInterpreted(lib, Fields(s[..n - 2]));
      }
      assert IsV1(lib, s, n) <==> ReadV1(lib, s).header.Header?;
    }
    forall m: nat | IsV1(lib, s, m)
      ensures m == n
    {
      FirstLineIs(s, m);
    }
  }

  lemma PayloadIsInterpreted(family: byte, p: seq<byte>)
    ensures !InterpretPayload(family, p).NoHeader?
    ensures InterpretPayload(family, p).Header?
       <==> family == 0 || (family == 0x11 && |p| >= 12) || (family == 0x21 && |p| >= 36)
  {
  }

  lemma V2IsRead(s: seq<byte>)
    requires |s| >= 12 && s[..12] == SIGNATURE
    ensures !ReadV2(s).header.NoHeader?
    ensures ReadV2(s).header.Header? <==> exists n: nat :: IsV2(s, n)
    ensures forall n: nat :: IsV2(s, n) ==> ReadV2(s).consumed == n
  {
    if |s| >= 16 {
      var length := Word(s[14], s[15]);
      if |s| - 16 >= length {
        PayloadIsInterpreted(s[13], s[16..16 + length]);
        VersionAndCommand(s[12]);
        assert IsV2(s, 16 + length) <==> ReadV2(s).header.Header?;
      }
    }
  }

  lemma VersionAndCommand(b: int)
    requires 0 <= b < 256
    ensures b / 16 == 2 && b % 16 == 0 <==> b == 0x20
    ensures b / 16 == 2 && b % 16 == 1 <==> b == 0x21
  {
  }

  /** The two versions start differently. */
  lemma VersionsDiffer(lib: Library, s: seq<byte>, n: nat)
    ensures IsV1(lib, s, n) ==> s[0] == 0x50
    ensures IsV2(s, n) ==> s[0] == 13
  {
    if IsV1(lib, s, n) {
      assert s[..6][0] == 0x50;
    }
    if IsV2(s, n) {
      assert s[..12][0] == 13;
    }
  }

  /** Every stream is headerless, has a well-formed header, or neither; the reader tells which, and reads a header whole. */
  lemma HeaderIsRead(lib: Library, s: seq<byte>)
    ensures ReadHeader(lib, s).header.NoHeader? <==> IsHeaderless(s)
    ensures ReadHeader(lib, s).header.Header? <==> IsWellFormed(lib, s)
    ensures forall n: nat :: IsV1(lib, s, n) || IsV2(s, n) ==> ReadHeader(lib, s).consumed == n
  {
    forall n: nat
      ensures IsV1(lib, s, n) ==> s[0] == 0x50
      ensures IsV2(s, n) ==> s[0] == 13
    {
      VersionsDiffer(lib, s, n);
    }
    if s != [] && s[0] == 0x50 && |s| >= 6 && s[..6] == V1_PREFIX {
      V1IsRead(lib, s);
      V1OrNothing(lib, s);
    } else if s != [] && s[0] == 13 && |s| >= 12 && s[..12] == SIGNATURE {
      V2IsRead(s);
      V2OrNothing(lib, s);
    }
  }

  lemma V1OrNothing(lib: Library, s: seq<byte>)
    requires s != [] && s[0] == 0x50
    ensures IsWellFormed(lib, s) <==> exists n: nat :: IsV1(lib, s, n)
    ensures forall n: nat :: !IsV2(s, n)
  {
    forall n: nat
      ensures !IsV2(s, n)
    {
      VersionsDiffer(lib, s, n);
    }
  }

  lemma V2OrNothing(lib: Library, s: seq<byte>)
    requires s != [] && s[0] == 13
    ensures IsWellFormed(lib, s) <==> exists n: nat :: IsV2(s, n)
    ensures forall n: nat :: !IsV1(lib, s, n)
  {
    forall n: nat
      ensures !IsV1(lib, s, n)
    {
      VersionsDiffer(lib, s, n);
    }
  }

  // ------------------------------------------------------------------ the policy

  /**
   The error of a connection, from its bytes and its policy: a missing header only when one is required, a header of an
   untrusted peer, and bytes that are neither headerless nor well formed. Everything else is served.
   */
  lemma ErrorIs(lib: Library, required: bool, trusted: bool, s: seq<byte>)
    ensures var error := Settle(lib, required, trusted, s).error;
            && (error == Some(NoProxyHeader) <==> required && IsHeaderless(s))
            && (error == Some(Untrusted) <==> !trusted && IsWellFormed(lib, s))
            && (error == Some(Unreadable) <==> !IsHeaderless(s) && !IsWellFormed(lib, s))
            && (error == None <==> (IsHeaderless(s) && !required) || (IsWellFormed(lib, s) && trusted))
  {
    HeaderIsRead(lib, s);
  }

  /** The addresses of a connection: those of a trusted version 1 header that names them. */
  lemma V1AddressesAre(lib: Library, required: bool, s: seq<byte>, n: nat, peer: Addr, local: Addr)
    requires IsV1(lib, s, n)
    ensures var settled, fields := Settle(lib, required, true, s), Fields(s[..n - 2]);
            if fields[1] == UNKNOWN then RemoteOf(settled, peer) == peer && LocalOf(settled, local) == local
            else
              && RemoteOf(settled, peer) == TCPAddr(lib.parseIP(fields[2]).value, lib.atoi(fields[4]).value)
              && LocalOf(settled, local) == TCPAddr(lib.parseIP(fields[3]).value, lib.atoi(fields[5]).value)
  {
    VersionsDiffer(lib, s, n);
    V1IsRead(lib, s);
    FieldsAreInterpreted(lib, Fields(s[..n - 2]));
  }

  /** The addresses of a trusted version 2 header: its payload's, or the connection's own without any. */
  lemma V2AddressesAre(lib: Library, required: bool, s: seq<byte>, n: nat, peer: Addr, local: Addr)
    requires IsV2(s, n)
    ensures var settled, p := Settle(lib, required, true, s), s[16..n];
            if s[12] == 0x20 || s[13] == 0 then RemoteOf(settled, peer) == peer && LocalOf(settled, local) == local
            else if s[13] == 0x11 then
              && RemoteOf(settled, peer) == TCPAddr(V4(p[..4]), Word(p[8], p[9]))
              && LocalOf(settled, local) == TCPAddr(V4(p[4..8]), Word(p[10], p[11]))
            else
              && RemoteOf(settled, peer) == TCPAddr(V6(p[..16]), Word(p[32], p[33]))
              && LocalOf(settled, local) == TCPAddr(V6(p[16..32]), Word(p[34], p[35]))
  {
    VersionsDiffer(lib, s, n);
    VersionAndCommand(s[12]);
    assert s[..12] == SIGNATURE;
  }
}
