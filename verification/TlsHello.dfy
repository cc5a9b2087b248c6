/**
  The in-kernel ClientHello and ServerHello walks. They read a scratch buffer that is reused and
  never cleared, and often hold only the first part of a message; what they report must come from
  the bytes copied in, and must not change when the rest of the message is there too.
 */
module TlsHello {
  import opened Wrappers
  import opened DnsNames

  const TLS_SCRATCH_LEN: nat := 4096
  const SNI_MAX: nat := 255
  const EXTENSION_BUDGET: nat := 64
  const SESSION_ID_AT: nat := 43
  const SUPPORTED_VERSIONS: nat := 0x002b

  // ---------------------------------------------------------------------------------------
  // ClientHello
  // ---------------------------------------------------------------------------------------

  datatype Sni = Sni(name: Bytes, truncated: bool)

  const NO_SNI: Sni := Sni([], false)

  function Least(a: nat, b: nat): nat { if a < b then a else b }

  /** The host name of a server_name extension whose data, `elen` bytes of it, starts at `o`. */
  function SniEntry(buf: Bytes, o: nat, elen: nat, extEnd: nat): Sni
    requires extEnd <= |buf|
  {
    if o + 5 > |buf| || buf[o + 2] != 0 then NO_SNI
    else
      var declared, start, end := Be16(buf, o + 3), o + 5, Least(o + elen, extEnd);
      if start >= end then NO_SNI
      else
        var n := Least(Least(declared, end - start), SNI_MAX);
        Sni(buf[start..start + n], n < declared)
  }

  function SniFrom(buf: Bytes, off: nat, extEnd: nat, budget: nat): Sni
    requires extEnd <= |buf|
    decreases |buf| - off
  {
    if budget == 0 || off + 4 > extEnd then NO_SNI
    else if Be16(buf, off) == 0 then SniEntry(buf, off + 4, Be16(buf, off + 2), extEnd)
    else SniFrom(buf, off + 4 + Be16(buf, off + 2), extEnd, budget - 1)
  }

  /** Past the session id, cipher suites and compression methods: where the extensions' length is. */
  function ExtensionsAt(buf: Bytes): Option<nat> {
    var sid: nat := SESSION_ID_AT;
    if sid + 1 > |buf| then None
    else
      var ciphers := sid + 1 + buf[sid];
      if ciphers + 2 > |buf| then None
      else
        var compression := ciphers + 2 + Be16(buf, ciphers);
        if compression + 1 > |buf| then None
        else
          var off := compression + 1 + buf[compression];
          if off + 2 > |buf| then None else Some(off)
  }

  function ClientHelloSni(buf: Bytes): Sni {
    match ExtensionsAt(buf)
    case None => NO_SNI
    case Some(off) => SniFrom(buf, off + 2, Least(off + 2 + Be16(buf, off), |buf|), EXTENSION_BUDGET)
  }

  /**
    A read of the scratch. The mask bounds it to the buffer, not to the `len` bytes copied in; the
    caller's check has to.
   */
  method ReadByte(buf: array<byte>, ghost len: nat, off: nat) returns (b: byte)
    requires buf.Length == TLS_SCRATCH_LEN && len <= TLS_SCRATCH_LEN
    ensures off < len ==> b == buf[..len][off]
  {
    b := buf[off % TLS_SCRATCH_LEN];
  }

  method ReadBe16(buf: array<byte>, ghost len: nat, off: nat) returns (n: nat)
    requires buf.Length == TLS_SCRATCH_LEN && len <= TLS_SCRATCH_LEN
    ensures off + 1 < len ==> n == Be16(buf[..len], off)
  {
    var hi := ReadByte(buf, len, off);
    var lo := ReadByte(buf, len, off + 1);
    n := (hi as int) * 256 + lo;
  }

  /** The walk over the scratch answers for the `len` bytes copied in, whatever lies past them. */
  method ParseClientHelloSni(buf: array<byte>, len: nat, out: array<byte>) returns (n: nat, truncated: bool)
    requires buf.Length == TLS_SCRATCH_LEN && len <= TLS_SCRATCH_LEN
    requires out.Length == SNI_MAX && out != buf
    modifies out
    ensures n <= SNI_MAX && Sni(out[..n], truncated) == ClientHelloSni(buf[..len])
  {
    hide Be16, SniFrom;
    n, truncated := 0, false;
    assert out[..0] == [];
    var off: nat := SESSION_ID_AT;
    if off + 1 > len { return; }
    var sid := ReadByte(buf, len, off);
    off := off + 1 + sid;
    if off + 2 > len { return; }
    var ciphers := ReadBe16(buf, len, off);
    off := off + 2 + ciphers;
    if off + 1 > len { return; }
    var compression := ReadByte(buf, len, off);
    off := off + 1 + compression;
    if off + 2 > len { return; }
    var block := ReadBe16(buf, len, off);
    var extEnd: nat := off + 2 + block;
    off := off + 2;
    if extEnd > len { extEnd := len; }
    n, truncated := WalkForSni(buf, len, off, extEnd, out);
  }

  method WalkForSni(buf: array<byte>, len: nat, start: nat, extEnd: nat, out: array<byte>) returns (n: nat,
                    truncated: bool)
    requires buf.Length == TLS_SCRATCH_LEN && extEnd <= len <= TLS_SCRATCH_LEN
    requires out.Length == SNI_MAX && out != buf
    modifies out
    ensures n <= SNI_MAX && Sni(out[..n], truncated) == SniFrom(buf[..len], start, extEnd, EXTENSION_BUDGET)
  {
    hide Be16, SniEntry;
    ghost var data := buf[..len];
    var off: nat := start;
    for i := 0 to 64
      invariant buf[..len] == data
      invariant SniFrom(data, off, extEnd, 64 - i) == SniFrom(data, start, extEnd, EXTENSION_BUDGET)
    {
      if off + 4 > extEnd { break; }
      var etype := ReadBe16(buf, len, off);
      var elen := ReadBe16(buf, len, off + 2);
      off := off + 4;
      if etype == 0 {
        n, truncated := CopySni(buf, len, off, elen, extEnd, out);
        return;
      }
      off := off + elen;
    }
    n, truncated := 0, false;
    assert out[..0] == [];
  }

  method CopySni(buf: array<byte>, len: nat, off: nat, elen: nat, extEnd: nat, out: array<byte>) returns (n: nat,
                 truncated: bool)
    requires buf.Length == TLS_SCRATCH_LEN && extEnd <= len <= TLS_SCRATCH_LEN
    requires out.Length == SNI_MAX && out != buf
    modifies out
    ensures n <= SNI_MAX && Sni(out[..n], truncated) == SniEntry(buf[..len], off, elen, extEnd)
  {
    hide Be16;
    n, truncated := 0, false;
    assert out[..0] == [];
    if off + 5 > len { return; }
    var nameType := ReadByte(buf, len, off + 2);
    if nameType != 0 { return; }
    var nlen := ReadBe16(buf, len, off + 3);
    var start := off + 5;
    var end := off + elen;
    if end > extEnd { end := extEnd; }
    if start >= end { return; }
    if nlen > end - start {
      nlen := end - start;
      truncated := true;
    }
    if nlen > SNI_MAX {
      nlen := SNI_MAX;
      truncated := true;
    }
    n := Masked(nlen, SNI_MAX + 1);
    var from := Masked(start, TLS_SCRATCH_LEN);
    CopyOut(buf, len, from, n, out);
  }

  /** A mask over a bound already held. */
  method Masked(x: nat, bound: nat) returns (r: nat)
    requires x < bound
    ensures r == x
  {
    r := x % bound;
  }

  /** The one bounded copy. */
  method CopyOut(buf: array<byte>, ghost len: nat, from: nat, n: nat, out: array<byte>)
    requires from + n <= len <= buf.Length && n <= out.Length && out != buf
    modifies out
    ensures out[..n] == buf[..len][from..from + n]
  {
    forall k | 0 <= k < n {
      out[k] := buf[from + k];
    }
  }

  // ---------------------------------------------------------------------------------------
  // ServerHello
  // ---------------------------------------------------------------------------------------

  /** The negotiated version and cipher suite; 0 for what could not be told. */
  datatype Negotiated = Negotiated(version: nat, cipher: nat)

  /** The version a walk of the extensions settles on, `whole` when the block was all copied in. */
  function VersionFrom(buf: Bytes, off: nat, extEnd: nat, whole: bool, legacy: nat, budget: nat): nat
    requires extEnd <= |buf|
    decreases |buf| - off
  {
    if budget == 0 then 0
    else if off + 4 > extEnd then (if whole then legacy else 0)
    else if Be16(buf, off) == SUPPORTED_VERSIONS then
      if Be16(buf, off + 2) >= 2 && off + 6 <= extEnd then Be16(buf, off + 4) else 0
    else VersionFrom(buf, off + 4 + Be16(buf, off + 2), extEnd, whole, legacy, budget - 1)
  }

  function CipherAt(buf: Bytes): Option<nat> {
    if SESSION_ID_AT + 1 > |buf| then None
    else
      var off := SESSION_ID_AT + 1 + buf[SESSION_ID_AT];
      if off + 2 > |buf| then None else Some(off)
  }

  function ServerHello(buf: Bytes): Negotiated {
    match CipherAt(buf)
    case None => Negotiated(0, 0)
    case Some(at) =>
      var off := at + 3;
      if off + 2 > |buf| then Negotiated(0, Be16(buf, at))
      else
        var end := off + 2 + Be16(buf, off);
        Negotiated(VersionFrom(buf, off + 2, Least(end, |buf|), end <= |buf|, Be16(buf, 9), EXTENSION_BUDGET), Be16(buf, at))
  }

  method ParseServerHello(buf: array<byte>, len: nat) returns (version: nat, cipher: nat)
    requires buf.Length == TLS_SCRATCH_LEN && len <= TLS_SCRATCH_LEN
    ensures Negotiated(version, cipher) == ServerHello(buf[..len])
  {
    hide Be16, VersionFrom;
    version, cipher := 0, 0;
    if 11 > len { return; }
    var legacy := ReadBe16(buf, len, 9);
    var off: nat := SESSION_ID_AT;
    if off + 1 > len { return; }
    var sid := ReadByte(buf, len, off);
    off := off + 1 + sid;
    if off + 2 > len { return; }
    cipher := ReadBe16(buf, len, off);
    off := off + 2 + 1;
    if off + 2 > len { return; }
    var block := ReadBe16(buf, len, off);
    var extEnd: nat := off + 2 + block;
    off := off + 2;
    var truncated := extEnd > len;
    if truncated { extEnd := len; }
    version := WalkForVersion(buf, len, off, extEnd, truncated, legacy);
  }

  method WalkForVersion(buf: array<byte>, len: nat, start: nat, extEnd: nat, truncated: bool,
                        legacy: nat) returns (version: nat)
    requires buf.Length == TLS_SCRATCH_LEN && extEnd <= len <= TLS_SCRATCH_LEN
    ensures version == VersionFrom(buf[..len], start, extEnd, !truncated, legacy, EXTENSION_BUDGET)
  {
    hide Be16;
    ghost var data := buf[..len];
    version := 0;
    var off: nat := start;
    for i := 0 to 64
      invariant version == 0
      invariant VersionFrom(data, off, extEnd, !truncated, legacy, 64 - i)
             == VersionFrom(data, start, extEnd, !truncated, legacy, EXTENSION_BUDGET)
    {
      if off + 4 > extEnd {
        if !truncated { version := legacy; }
        return;
      }
      var etype := ReadBe16(buf, len, off);
      var elen := ReadBe16(buf, len, off + 2);
      off := off + 4;
      if etype == SUPPORTED_VERSIONS {
        if elen >= 2 && off + 2 <= extEnd { version := ReadBe16(buf, len, off); }
        return;
      }
      off := off + elen;
    }
  }

  // ---------------------------------------------------------------------------------------
  // Clipped input
  // ---------------------------------------------------------------------------------------

  lemma Be16OnPrefix(buf: Bytes, k: nat, off: nat)
    requires off + 1 < k <= |buf|
    ensures Be16(buf[..k], off) == Be16(buf, off)
  {
  }

  predicate Confident(r: Sni) { r.name != [] && !r.truncated }

  /** A name read whole from its extension is not read differently when more of the message is there. */
  lemma EntryOnPrefix(buf: Bytes, k: nat, o: nat, elen: nat, endK: nat, end: nat)
    requires endK <= k <= |buf| && endK <= end <= |buf|
    requires Confident(SniEntry(buf[..k], o, elen, endK))
    ensures SniEntry(buf[..k], o, elen, endK) == SniEntry(buf, o, elen, end)
  {
    Be16OnPrefix(buf, k, o + 3);
    var n := |SniEntry(buf[..k], o, elen, endK).name|;
    SliceOfPrefix(buf, k, o + 5, o + 5 + n);
  }

  lemma {:induction false} SniFromOnPrefix(buf: Bytes, k: nat, off: nat, endK: nat, end: nat, budget: nat)
    requires endK <= k <= |buf| && endK <= end <= |buf|
    requires Confident(SniFrom(buf[..k], off, endK, budget))
    ensures SniFrom(buf[..k], off, endK, budget) == SniFrom(buf, off, end, budget)
    decreases budget
  {
    hide SniEntry, Be16;
    Be16OnPrefix(buf, k, off);
    Be16OnPrefix(buf, k, off + 2);
    var elen := Be16(buf, off + 2);
    if Be16(buf, off) == 0 {
      EntryOnPrefix(buf, k, off + 4, elen, endK, end);
    } else {
      SniFromOnPrefix(buf, k, off + 4 + elen, endK, end, budget - 1);
    }
  }

  lemma ExtensionsOnPrefix(buf: Bytes, k: nat)
    requires k <= |buf| && ExtensionsAt(buf[..k]).Some?
    ensures ExtensionsAt(buf[..k]) == ExtensionsAt(buf) && ExtensionsAt(buf).value + 2 <= k
  {
    Be16OnPrefix(buf, k, SESSION_ID_AT + 1 + buf[SESSION_ID_AT]);
  }

  /** A confident name from a clipped hello is the name of the whole hello. */
  lemma SniOnPrefix(buf: Bytes, k: nat)
    requires k <= |buf| && Confident(ClientHelloSni(buf[..k]))
    ensures ClientHelloSni(buf[..k]) == ClientHelloSni(buf)
  {
    hide SniFrom, Be16, ExtensionsAt;
    ExtensionsOnPrefix(buf, k);
    var off := ExtensionsAt(buf).value;
    Be16OnPrefix(buf, k, off);
    var end := off + 2 + Be16(buf, off);
    SniFromOnPrefix(buf, k, off + 2, Least(end, k), Least(end, |buf|), EXTENSION_BUDGET);
  }

  lemma {:induction false} VersionOnPrefix(buf: Bytes, k: nat, off: nat, endK: nat, end: nat, wholeK: bool, whole: bool,
                                           legacy: nat, budget: nat)
    requires endK <= k <= |buf| && endK <= end <= |buf|
    requires wholeK ==> whole && endK == end
    requires VersionFrom(buf[..k], off, endK, wholeK, legacy, budget) != 0
    ensures VersionFrom(buf[..k], off, endK, wholeK, legacy, budget) == VersionFrom(buf, off, end, whole, legacy, budget)
    decreases budget
  {
    hide Be16;
    if off + 4 <= endK {
      Be16OnPrefix(buf, k, off);
      Be16OnPrefix(buf, k, off + 2);
      if Be16(buf, off) == SUPPORTED_VERSIONS {
        Be16OnPrefix(buf, k, off + 4);
      } else {
        VersionOnPrefix(buf, k, off + 4 + Be16(buf, off + 2), endK, end, wholeK, whole, legacy, budget - 1);
      }
    }
  }

  lemma CipherOnPrefix(buf: Bytes, k: nat)
    requires k <= |buf| && CipherAt(buf[..k]).Some?
    ensures CipherAt(buf[..k]) == CipherAt(buf) && CipherAt(buf).value + 2 <= k && k >= 11
    ensures Be16(buf[..k], CipherAt(buf).value) == Be16(buf, CipherAt(buf).value) && Be16(buf[..k], 9) == Be16(buf, 9)
  {
  }

  /** A clipped ServerHello tells nothing, or the truth: of the version and of the cipher alike. */
  lemma ServerHelloOnPrefix(buf: Bytes, k: nat)
    requires k <= |buf|
    ensures var part, whole := ServerHello(buf[..k]), ServerHello(buf);
            && (part.version == 0 || part.version == whole.version)
            && (part.cipher == 0 || part.cipher == whole.cipher)
  {
    hide VersionFrom, Be16, CipherAt;
    if CipherAt(buf[..k]).Some? {
      CipherOnPrefix(buf, k);
      var off := CipherAt(buf).value + 3;
      if off + 2 <= k {
        Be16OnPrefix(buf, k, off);
        var end := off + 2 + Be16(buf, off);
        if ServerHello(buf[..k]).version != 0 {
          VersionOnPrefix(buf, k, off + 2, Least(end, k), Least(end, |buf|), end <= k, end <= |buf|, Be16(buf, 9), EXTENSION_BUDGET);
        }
      }
    }
  }

  // ---------------------------------------------------------------------------------------
  // Encode, then parse
  // ---------------------------------------------------------------------------------------

  datatype Extension = Extension(kind: nat, data: Bytes)

  predicate LegalExtension(e: Extension) { e.kind < 65536 && |e.data| < 65536 }

  predicate LegalExtensions(es: seq<Extension>) { forall i :: 0 <= i < |es| ==> LegalExtension(es[i]) }

  function ExtensionWire(e: Extension): Bytes
    requires LegalExtension(e)
  {
    Enc16(e.kind) + (Enc16(|e.data|) + e.data)
  }

  function ExtensionsWire(es: seq<Extension>): Bytes
    requires LegalExtensions(es)
  {
    if es == [] then [] else ExtensionWire(es[0]) + ExtensionsWire(es[1..])
  }

  /**
    A ClientHello (section 4.1.2 of RFC 8446): record and handshake headers, client version and
    random; then the session id, cipher suites, compression methods and extensions.
   */
  datatype Hello = Hello(head: Bytes, sessionId: Bytes, ciphers: Bytes, compression: Bytes, extensions: seq<Extension>)

  predicate LegalHello(h: Hello) {
    && |h.head| == 43 && |h.sessionId| < 256 && |h.ciphers| < 65536 && |h.compression| < 256
    && LegalExtensions(h.extensions) && |ExtensionsWire(h.extensions)| < 65536
  }

  /** Everything ahead of the extensions block. */
  function FixedWire(h: Hello): Bytes
    requires LegalHello(h)
  {
    h.head + ([|h.sessionId| as byte] + (h.sessionId + (Enc16(|h.ciphers|) + (h.ciphers + ([|h.compression| as byte] + h.compression)))))
  }

  function HelloWire(h: Hello): Bytes
    requires LegalHello(h)
  {
    FixedWire(h) + (Enc16(|ExtensionsWire(h.extensions)|) + ExtensionsWire(h.extensions))
  }

  /** The data of a server_name extension with one host_name (section 3 of RFC 6066). */
  function ServerName(name: Bytes): Bytes
    requires |name| + 3 < 65536
  {
    Enc16(|name| + 3) + ([0] + (Enc16(|name|) + name))
  }

  lemma ByteAt(buf: Bytes, pos: nat, b: byte, tail: Bytes)
    requires At(buf, pos, [b] + tail)
    ensures pos < |buf| && buf[pos] == b && At(buf, pos + 1, tail)
  {
    AtBytes(buf, pos, [b] + tail, 0);
    AtSplit(buf, pos, [b], tail);
  }

  lemma WordAt(buf: Bytes, pos: nat, n: nat, tail: Bytes)
    requires n < 65536 && At(buf, pos, Enc16(n) + tail)
    ensures pos + 1 < |buf| && Be16(buf, pos) == n && At(buf, pos + 2, tail)
  {
    AtSplit(buf, pos, Enc16(n), tail);
    Enc16Decodes(buf, pos, n);
  }

  /** Where each length of the fixed part sits. */
  lemma FixedSections(buf: Bytes, h: Hello)
    requires LegalHello(h) && At(buf, 0, FixedWire(h))
    ensures var c := SESSION_ID_AT + 1 + |h.sessionId|;
            var z := c + 2 + |h.ciphers|;
            && z < |buf| && buf[SESSION_ID_AT] == |h.sessionId|
            && Be16(buf, c) == |h.ciphers|
            && buf[z] == |h.compression|
  {
    hide At, Be16, Enc16, LegalExtensions, ExtensionsWire;
    var z := [|h.compression| as byte] + h.compression;
    var y := h.ciphers + z;
    var x := Enc16(|h.ciphers|) + y;
    AtSplit(buf, 0, h.head, [|h.sessionId| as byte] + (h.sessionId + x));
    ByteAt(buf, SESSION_ID_AT, |h.sessionId| as byte, h.sessionId + x);
    AtSplit(buf, SESSION_ID_AT + 1, h.sessionId, x);
    var ciphers := SESSION_ID_AT + 1 + |h.sessionId|;
    WordAt(buf, ciphers, |h.ciphers|, y);
    AtSplit(buf, ciphers + 2, h.ciphers, z);
    ByteAt(buf, ciphers + 2 + |h.ciphers|, |h.compression| as byte, h.compression);
  }

  /** The walk past the fixed part lands on the extensions block. */
  lemma FindsExtensions(buf: Bytes, h: Hello)
    requires LegalHello(h) && At(buf, 0, FixedWire(h)) && |FixedWire(h)| + 2 <= |buf|
    ensures ExtensionsAt(buf) == Some(|FixedWire(h)|)
  {
    hide At, Be16, FixedWire, LegalExtensions;
    FixedSections(buf, h);
    FixedLength(h);
  }

  lemma FixedLength(h: Hello)
    requires LegalHello(h)
    ensures |FixedWire(h)| == SESSION_ID_AT + 1 + |h.sessionId| + 2 + |h.ciphers| + 1 + |h.compression|
  {
    hide LegalExtensions;
  }

  lemma ExtensionFields(buf: Bytes, pos: nat, e: Extension, tail: Bytes)
    requires LegalExtension(e) && At(buf, pos, ExtensionWire(e) + tail)
    ensures pos + 4 + |e.data| + |tail| <= |buf|
    ensures |ExtensionWire(e)| == 4 + |e.data|
    ensures Be16(buf, pos) == e.kind && Be16(buf, pos + 2) == |e.data|
    ensures At(buf, pos + 4, e.data) && At(buf, pos + 4 + |e.data|, tail)
  {
    AtSplit(buf, pos, ExtensionWire(e), tail);
    hide At, Be16;
    assert |Enc16(e.kind)| == 2 && |Enc16(|e.data|)| == 2;
    hide Enc16;
    WordAt(buf, pos, e.kind, Enc16(|e.data|) + e.data);
    WordAt(buf, pos + 2, |e.data|, e.data);
    AtEnds(buf, pos + 4 + |e.data|, tail);
  }

  lemma AtEnds(buf: Bytes, pos: nat, w: Bytes)
    requires At(buf, pos, w)
    ensures pos + |w| <= |buf|
  {
  }

  lemma ReadsServerName(buf: Bytes, pos: nat, name: Bytes, end: nat)
    requires 1 <= |name| && |name| + 3 < 65536 && At(buf, pos, ServerName(name)) && pos + |ServerName(name)| <= end <= |buf|
    ensures SniEntry(buf, pos, |ServerName(name)|, end) == Sni(name[..Least(|name|, 255)], |name| > 255)
  {
    assert |ServerName(name)| == 5 + |name|;
    hide At, Be16;
    var tail := Enc16(|name|) + name;
    WordAt(buf, pos, |name| + 3, [0] + tail);
    ByteAt(buf, pos + 2, 0, tail);
    WordAt(buf, pos + 3, |name|, name);
    AtIs(buf, pos + 5, name);
    var n := Least(|name|, 255);
    assert buf[pos + 5..pos + 5 + |name|][..n] == buf[pos + 5..pos + 5 + n];
  }

  lemma AtIs(buf: Bytes, pos: nat, w: Bytes)
    requires At(buf, pos, w)
    ensures pos + |w| <= |buf| && buf[pos..pos + |w|] == w
  {
  }

  /** Extensions that are not server_name are walked over. */
  lemma {:induction false} SkipsOthers(buf: Bytes, pos: nat, es: seq<Extension>, n: nat, end: nat, budget: nat)
    requires LegalExtensions(es) && At(buf, pos, ExtensionsWire(es)) && pos + |ExtensionsWire(es)| <= end <= |buf|
    requires n <= |es| && n <= budget && forall i :: 0 <= i < n ==> es[i].kind != 0
    ensures var q := pos + |ExtensionsWire(es)| - |ExtensionsWire(es[n..])|;
            && q >= pos && At(buf, q, ExtensionsWire(es[n..]))
            && SniFrom(buf, pos, end, budget) == SniFrom(buf, q, end, budget - n)
    decreases n
  {
    hide At, Be16, SniEntry, LegalExtension;
    if n == 0 {
      assert es[0..] == es;
    } else {
      var tail := es[1..];
      ExtensionFields(buf, pos, es[0], ExtensionsWire(tail));
      hide ExtensionWire;
      SkipsOthers(buf, pos + 4 + |es[0].data|, tail, n - 1, end, budget - 1);
      assert tail[n - 1..] == es[n..];
      assert forall i :: 0 <= i < n - 1 ==> tail[i] == es[i + 1];
    }
  }

  /**
    The name of a well-formed hello comes back exact: any session id, cipher suites and compression
    methods, any extensions in any order with server_name among the first 64, and any bytes after it. A name over
    255 bytes is cut there, and said to be.
   */
  lemma HelloRoundTrip(buf: Bytes, h: Hello, i: nat, name: Bytes)
    requires LegalHello(h) && At(buf, 0, HelloWire(h))
    requires i < |h.extensions| && i < 64
    requires 1 <= |name| && |name| + 3 < 65536 && h.extensions[i] == Extension(0, ServerName(name))
    requires forall j :: 0 <= j < i ==> h.extensions[j].kind != 0
    ensures ClientHelloSni(buf) == Sni(if |name| <= 255 then name else name[..255], |name| > 255)
  {
    hide At, Be16, SniEntry, ExtensionsAt, FixedWire, LegalExtension, ServerName;
    var es := h.extensions;
    var at := OpensBlock(buf, h);
    var end := at + 2 + |ExtensionsWire(es)|;
    SkipsOthers(buf, at + 2, es, i, end, EXTENSION_BUDGET);
    var rest := es[i..];
    var q := end - |ExtensionsWire(rest)|;
    assert rest[0] == es[i] && ExtensionsWire(rest) == ExtensionWire(rest[0]) + ExtensionsWire(rest[1..]);
    ExtensionFields(buf, q, rest[0], ExtensionsWire(rest[1..]));
    ReadsServerName(buf, q + 4, name, end);
  }

  /** The block found is the one encoded, whole. */
  lemma OpensBlock(buf: Bytes, h: Hello) returns (at: nat)
    requires LegalHello(h) && At(buf, 0, HelloWire(h))
    ensures ExtensionsAt(buf) == Some(at) && at + 1 < |buf| && Be16(buf, at) == |ExtensionsWire(h.extensions)|
    ensures at + 2 + |ExtensionsWire(h.extensions)| <= |buf| && At(buf, at + 2, ExtensionsWire(h.extensions))
  {
    hide At, Be16, ExtensionsAt, FixedWire, ExtensionsWire, Enc16;
    var e := ExtensionsWire(h.extensions);
    at := |FixedWire(h)|;
    AtSplit(buf, 0, FixedWire(h), Enc16(|e|) + e);
    WordAt(buf, at, |e|, e);
    AtEnds(buf, at + 2, e);
    FindsExtensions(buf, h);
  }

  /** No server_name among the first 64 extensions: no name. */
  lemma NoServerName(buf: Bytes, h: Hello)
    requires LegalHello(h) && At(buf, 0, HelloWire(h))
    requires forall j :: 0 <= j < |h.extensions| && j < 64 ==> h.extensions[j].kind != 0
    ensures ClientHelloSni(buf) == NO_SNI
  {
    hide At, Be16, SniEntry, ExtensionsAt, FixedWire, LegalExtension;
    var es := h.extensions;
    var at := OpensBlock(buf, h);
    var end := at + 2 + |ExtensionsWire(es)|;
    var n := Least(|es|, EXTENSION_BUDGET);
    SkipsOthers(buf, at + 2, es, n, end, EXTENSION_BUDGET);
    if n == |es| {
      assert es[n..] == [];
    }
  }

  /** A hello that ends before any extensions block: no name. */
  lemma NoExtensions(h: Hello)
    requires LegalHello(h)
    ensures ClientHelloSni(FixedWire(h)) == NO_SNI
  {
    hide FixedWire;
    Extends(h);
  }

  /** Past the fixed part there must be two more bytes for a block to be found. */
  lemma Extends(h: Hello)
    requires LegalHello(h)
    ensures ExtensionsAt(FixedWire(h)).None?
  {
    hide FixedWire;
    var buf := FixedWire(h);
    var more := buf + [0, 0];
    assert more[..|buf|] == buf && more[0..|buf|] == buf;
    if ExtensionsAt(more[..|buf|]).Some? {
      ExtensionsOnPrefix(more, |buf|);
      FindsExtensions(more, h);
    }
  }

  // ---------------------------------------------------------------------------------------
  // ServerHello, encoded
  // ---------------------------------------------------------------------------------------

  /**
    A ServerHello (section 4.1.3 of RFC 8446): record and handshake headers; the legacy version, the random, the echoed
    session id, the cipher suite and compression method chosen, and the extensions.
   */
  datatype Reply = Reply(headers: Bytes, legacy: nat, random: Bytes, sessionId: Bytes, cipher: nat, compression: byte,
                           extensions: seq<Extension>)

  predicate LegalReply(h: Reply) {
    && |h.headers| == 9 && h.legacy < 65536 && |h.random| == 32 && |h.sessionId| < 256 && h.cipher < 65536
    && LegalExtensions(h.extensions) && |ExtensionsWire(h.extensions)| < 65536
  }

  /** Everything ahead of the extensions block. */
  function ChoiceWire(h: Reply): Bytes
    requires LegalReply(h)
  {
    h.headers + (Enc16(h.legacy) + (h.random + ([|h.sessionId| as byte] + (h.sessionId + (Enc16(h.cipher) + [h.compression])))))
  }

  function ReplyWire(h: Reply): Bytes
    requires LegalReply(h)
  {
    ChoiceWire(h) + (Enc16(|ExtensionsWire(h.extensions)|) + ExtensionsWire(h.extensions))
  }

  /** Where the cipher suite is, and the extensions' length. */
  function ChoiceAt(h: Reply): nat { 44 + |h.sessionId| }

  lemma ChoiceLength(h: Reply)
    requires LegalReply(h)
    ensures |ChoiceWire(h)| == ChoiceAt(h) + 3
    ensures |ReplyWire(h)| == ChoiceAt(h) + 5 + |ExtensionsWire(h.extensions)|
  {
    hide LegalExtensions, ExtensionsWire;
  }

  /** The fixed fields of a message that is all there. */
  lemma ChoiceFields(w: Bytes, h: Reply)
    requires LegalReply(h) && At(w, 0, ReplyWire(h))
    ensures ChoiceAt(h) + 5 + |ExtensionsWire(h.extensions)| <= |w|
    ensures Be16(w, 9) == h.legacy && w[43] == |h.sessionId|
    ensures Be16(w, ChoiceAt(h)) == h.cipher && Be16(w, ChoiceAt(h) + 3) == |ExtensionsWire(h.extensions)|
    ensures At(w, ChoiceAt(h) + 5, ExtensionsWire(h.extensions))
  {
    hide At, Be16, Enc16, LegalExtensions, ExtensionsWire;
    var es := ExtensionsWire(h.extensions);
    var z := Enc16(h.cipher) + [h.compression];
    var y := [|h.sessionId| as byte] + (h.sessionId + z);
    ChoiceLength(h);
    AtEnds(w, 0, ReplyWire(h));
    AtSplit(w, 0, ChoiceWire(h), Enc16(|es|) + es);
    WordAt(w, ChoiceAt(h) + 3, |es|, es);
    AtSplit(w, 0, h.headers, Enc16(h.legacy) + (h.random + y));
    WordAt(w, 9, h.legacy, h.random + y);
    AtSplit(w, 11, h.random, y);
    ByteAt(w, 43, |h.sessionId| as byte, h.sessionId + z);
    AtSplit(w, 44, h.sessionId, z);
    WordAt(w, ChoiceAt(h), h.cipher, [h.compression]);
  }

  /** What the walk is given of a message of which `k` bytes are there, the extensions' length among them. */
  lemma WalkGiven(w: Bytes, h: Reply, k: nat)
    requires LegalReply(h) && At(w, 0, ReplyWire(h)) && ChoiceAt(h) + 5 <= k <= |w|
    ensures var start, end := ChoiceAt(h) + 5, ChoiceAt(h) + 5 + |ExtensionsWire(h.extensions)|;
            ServerHello(w[..k])
            == Negotiated(VersionFrom(w[..k], start, Least(end, k), end <= k, h.legacy, 64), h.cipher)
  {
    hide VersionFrom, Be16, ReplyWire, At, ExtensionsWire, LegalExtensions;
    ChoiceFields(w, h);
    Be16OnPrefix(w, k, 9);
    Be16OnPrefix(w, k, ChoiceAt(h));
    Be16OnPrefix(w, k, ChoiceAt(h) + 3);
    assert w[..k][43] == w[43];
  }

  /** Extensions of another kind are walked over, as far as they are there. */
  lemma {:induction false} WalksOver(w: Bytes, k: nat, pos: nat, es: seq<Extension>, n: nat, end: nat, whole: bool, legacy: nat,
                                     budget: nat)
    requires LegalExtensions(es) && At(w, pos, ExtensionsWire(es)) && end <= k <= |w|
    requires n <= |es| && n <= budget && forall i :: 0 <= i < n ==> es[i].kind != 43
    ensures var q := pos + |ExtensionsWire(es)| - |ExtensionsWire(es[n..])|;
            && q >= pos && At(w, q, ExtensionsWire(es[n..]))
            && (q <= end ==> VersionFrom(w[..k], pos, end, whole, legacy, budget)
                             == VersionFrom(w[..k], q, end, whole, legacy, budget - n))
            && (q > end && !whole ==> VersionFrom(w[..k], pos, end, whole, legacy, budget) == 0)
    decreases n
  {
    hide At, Be16;
    if n == 0 {
      assert es[0..] == es;
    } else {
      var tail := es[1..];
      ExtensionFields(w, pos, es[0], ExtensionsWire(tail));
      hide ExtensionWire;
      if pos + 4 <= end {
        Be16OnPrefix(w, k, pos);
        Be16OnPrefix(w, k, pos + 2);
      }
      WalksOver(w, k, pos + 4 + |es[0].data|, tail, n - 1, end, whole, legacy, budget - 1);
      assert tail[n - 1..] == es[n..];
      assert forall i :: 0 <= i < n - 1 ==> tail[i] == es[i + 1];
    }
  }

  /** `es[i]` is the first extension of kind 43, supported_versions, and tells `v`. */
  predicate Versions(es: seq<Extension>, i: nat, v: nat) {
    && i < |es| && es[i].kind == 43 && v < 65536 && |es[i].data| >= 2 && es[i].data[..2] == Enc16(v)
    && forall j :: 0 <= j < i ==> es[j].kind != 43
  }

  /** Where the extension `es[i]` starts. */
  function ExtensionAt(h: Reply, i: nat): nat
    requires LegalReply(h) && i <= |h.extensions|
  {
    ChoiceAt(h) + 5 + |ExtensionsWire(h.extensions[..i])|
  }

  lemma {:induction false} WireSplits(es: seq<Extension>, i: nat)
    requires LegalExtensions(es) && i <= |es|
    ensures |ExtensionsWire(es)| == |ExtensionsWire(es[..i])| + |ExtensionsWire(es[i..])|
    decreases i
  {
    hide ExtensionWire;
    if i == 0 {
      assert es[0..] == es;
    } else {
      assert es[..i][1..] == es[1..][..i - 1] && es[1..][i - 1..] == es[i..];
      WireSplits(es[1..], i - 1);
    }
  }

  /** The version of an extension all there. */
  lemma VersionRead(w: Bytes, k: nat, q: nat, es: seq<Extension>, v: nat, end: nat, whole: bool, legacy: nat, budget: nat)
    requires LegalExtensions(es) && Versions(es, 0, v) && At(w, q, ExtensionsWire(es)) && end <= k <= |w| && budget > 0
    ensures q + 6 <= end ==> VersionFrom(w[..k], q, end, whole, legacy, budget) == v
    ensures q <= end < q + 6 && !whole ==> VersionFrom(w[..k], q, end, whole, legacy, budget) == 0
  {
    hide At, Be16;
    var tail := ExtensionsWire(es[1..]);
    ExtensionFields(w, q, es[0], tail);
    FirstWord(w, q + 4, es[0].data, v);
    if q + 4 <= end {
      Be16OnPrefix(w, k, q);
      Be16OnPrefix(w, k, q + 2);
    }
    if q + 6 <= end {
      Be16OnPrefix(w, k, q + 4);
    }
  }

  lemma FirstWord(w: Bytes, pos: nat, data: Bytes, v: nat)
    requires v < 65536 && |data| >= 2 && data[..2] == Enc16(v) && At(w, pos, data)
    ensures pos + 1 < |w| && Be16(w, pos) == v
  {
    assert data == Enc16(v) + data[2..];
    WordAt(w, pos, v, data[2..]);
  }

  /**
    The version and the cipher of a well-formed ServerHello come back exact: any session id and compression method, any
    extensions with supported_versions among the first 64, and any bytes after it.
   */
  lemma ServerHelloRoundTrip(w: Bytes, h: Reply, i: nat, v: nat)
    requires LegalReply(h) && At(w, 0, ReplyWire(h)) && i < 64 && Versions(h.extensions, i, v)
    ensures ServerHello(w) == Negotiated(v, h.cipher)
  {
    hide At, Be16, ChoiceWire, ReplyWire, VersionFrom, LegalExtension, ServerHello;
    var es, k := h.extensions, |w|;
    var start, end := ChoiceAt(h) + 5, ChoiceAt(h) + 5 + |ExtensionsWire(es)|;
    ChoiceFields(w, h);
    assert w[..k] == w;
    WalkGiven(w, h, k);
    WalksOver(w, k, start, es, i, end, true, h.legacy, 64);
    FromVersions(es, i, v);
    VersionRead(w, k, end - |ExtensionsWire(es[i..])|, es[i..], v, end, true, h.legacy, 64 - i);
  }

  lemma FromVersions(es: seq<Extension>, i: nat, v: nat)
    requires LegalExtensions(es) && Versions(es, i, v)
    ensures LegalExtensions(es[i..]) && Versions(es[i..], 0, v) && |ExtensionsWire(es[i..])| >= 6
  {
    hide LegalExtension;
    var rest := es[i..];
    assert rest[0] == es[i];
    assert ExtensionsWire(rest) == ExtensionWire(rest[0]) + ExtensionsWire(rest[1..]);
  }

  /** With no supported_versions, and the walk not cut off at its 64th extension, it is the legacy version. */
  lemma ServerHelloLegacy(w: Bytes, h: Reply)
    requires LegalReply(h) && At(w, 0, ReplyWire(h))
    requires forall j :: 0 <= j < |h.extensions| && j < 64 ==> h.extensions[j].kind != 43
    ensures ServerHello(w) == Negotiated(if |h.extensions| <= 63 then h.legacy else 0, h.cipher)
  {
    hide At, Be16, ChoiceWire, ReplyWire, LegalExtension, ServerHello;
    var es, k := h.extensions, |w|;
    var start, end := ChoiceAt(h) + 5, ChoiceAt(h) + 5 + |ExtensionsWire(es)|;
    var n := Least(|es|, 64);
    ChoiceFields(w, h);
    assert w[..k] == w;
    WalkGiven(w, h, k);
    WalksOver(w, k, start, es, n, end, true, h.legacy, 64);
    if n == |es| {
      assert es[n..] == [];
    }
  }

  /**
    Clipped ahead of its supported_versions, or of the end of a block that has none, the version is 0: never the
    legacy one. The cipher is right as soon as it is there, and 0 before.
   */
  lemma ServerHelloClipped(w: Bytes, h: Reply, k: nat, i: nat, v: nat)
    requires LegalReply(h) && w == ReplyWire(h) && k < |w|
    requires i < 64 && Versions(h.extensions, i, v) && k < ExtensionAt(h, i) + 6
    ensures ServerHello(w[..k]) == Negotiated(0, if k >= ChoiceAt(h) + 2 then h.cipher else 0)
  {
    WholeIsAt(w, ReplyWire(h));
    hide At, Be16, ChoiceWire, ReplyWire, VersionFrom, LegalExtensions, ServerHello, Versions, Enc16, ExtensionsWire;
    if k < ChoiceAt(h) + 5 {
      Short(w, h, k);
    } else {
      ChoiceLength(h);
      ChoiceFields(w, h);
      WalkGiven(w, h, k);
      ClippedWalk(w, k, ChoiceAt(h) + 5, h.extensions, i, v, h.legacy);
    }
  }

  lemma WholeIsAt(w: Bytes, wire: Bytes)
    requires w == wire
    ensures At(w, 0, wire)
  {
    assert w[0..|w|] == w;
  }

  lemma ClippedWalk(w: Bytes, k: nat, start: nat, es: seq<Extension>, i: nat, v: nat, legacy: nat)
    requires LegalExtensions(es) && At(w, start, ExtensionsWire(es)) && k <= |w|
    requires i < 64 && Versions(es, i, v) && k < start + |ExtensionsWire(es[..i])| + 6
    ensures VersionFrom(w[..k], start, k, false, legacy, 64) == 0
  {
    hide At, Be16, VersionFrom, LegalExtension;
    WireSplits(es, i);
    WalksOver(w, k, start, es, i, k, false, legacy, 64);
    FromVersions(es, i, v);
    VersionRead(w, k, start + |ExtensionsWire(es)| - |ExtensionsWire(es[i..])|, es[i..], v, k, false, legacy, 64 - i);
  }

  lemma Short(w: Bytes, h: Reply, k: nat)
    requires LegalReply(h) && At(w, 0, ReplyWire(h)) && k < ChoiceAt(h) + 5 && k <= |w|
    ensures ServerHello(w[..k]) == Negotiated(0, if k >= ChoiceAt(h) + 2 then h.cipher else 0)
  {
    hide At, Be16, ChoiceWire, ReplyWire, VersionFrom, LegalExtensions;
    ChoiceFields(w, h);
    if k >= ChoiceAt(h) + 2 {
      Be16OnPrefix(w, k, ChoiceAt(h));
      assert w[..k][43] == w[43];
    } else if k > 43 {
      assert w[..k][43] == w[43];
    }
  }
}
