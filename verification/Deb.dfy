/** Debian packages (internal/oci/deb.go): finding the data member of an ar archive. */
module Deb {
  import opened Strings
  import opened Decimal

  const AR_MAGIC := "!<arch>\n"
  const TRAILER := "`\n"
  const HEADER_LEN := 60
  const NAME_END := 16
  const SIZE_START := 48
  const SIZE_END := 58

  datatype DebError =
    | MagicUnreadable
    | NotDebian
    | TruncatedHeader
    | MalformedHeader
    | UnreadableSize(name: string)
    | UnsupportedCodec(codec: string)
    | SkipFailed(name: string)
    | NoDataMember

  /** The payload, still compressed, and the codec that reads it. */
  datatype DataMember = DataMember(codec: string, payload: string)

  predicate IsSpace(c: char) {
    c == ' ' || c == '\t' || c == '\n' || c == '\r' || c == '\U{0b}' || c == '\U{0c}'
  }

  function TrimLeftSpace(s: string): string {
    if s != "" && IsSpace(s[0]) then TrimLeftSpace(s[1..]) else s
  }

  function TrimRightSpace(s: string): string {
    if s != "" && IsSpace(s[|s| - 1]) then TrimRightSpace(s[..|s| - 1]) else s
  }

  function TrimSpace(s: string): string {
    TrimRightSpace(TrimLeftSpace(s))
  }

  function TrimRightSlash(s: string): string {
    if s != "" && s[|s| - 1] == '/' then TrimRightSlash(s[..|s| - 1]) else s
  }

  predicate Supported(codec: string) {
    codec in ["", "gz", "xz", "zst", "bz2"]
  }

  function CodecOf(name: string): string
    requires HasPrefix(name, "data.tar")
  {
    TrimPrefix(name[|"data.tar"|..], ".")
  }

  function MemberName(hdr: string): string
    requires |hdr| == HEADER_LEN
  {
    TrimRightSlash(TrimSpace(hdr[..NAME_END]))
  }

  function MemberSize(hdr: string): Option<int>
    requires |hdr| == HEADER_LEN
  {
    ParseInt(TrimSpace(hdr[SIZE_START..SIZE_END]))
  }

  /** What is found in the rest of an archive, standing before a member header. */
  function FindData(rest: string): Result<DataMember, DebError>
    decreases |rest|
  {
    if |rest| == 0 then Err(NoDataMember)
    else if |rest| < HEADER_LEN then Err(TruncatedHeader)
    else
      var hdr, body := rest[..HEADER_LEN], rest[HEADER_LEN..];
      if hdr[SIZE_END..] != TRAILER then Err(MalformedHeader)
      else
        var name, size := MemberName(hdr), MemberSize(hdr);
        if size.None? || size.value < 0 then Err(UnreadableSize(name))
        else if HasPrefix(name, "data.tar") then
          if !Supported(CodecOf(name)) then Err(UnsupportedCodec(CodecOf(name)))
          else Ok(DataMember(CodecOf(name), if size.value <= |body| then body[..size.value] else body))
        else
          var skip := size.value + size.value % 2;
          if |body| < skip then Err(SkipFailed(name)) else FindData(body[skip..])
  }

  function ReadDeb(s: string): Result<DataMember, DebError> {
    if |s| < |AR_MAGIC| then Err(MagicUnreadable)
    else if s[..|AR_MAGIC|] != AR_MAGIC then Err(NotDebian)
    else FindData(s[|AR_MAGIC|..])
  }

  datatype Read = Full(bytes: string) | Eof | UnexpectedEof

  /** An io.Reader over bytes already fetched. */
  class Reader {
    const data: string
    var pos: nat

    ghost predicate Valid()
      reads this
    {
      pos <= |data|
    }

    ghost function Rest(): string
      reads this
      requires Valid()
    {
      data[pos..]
    }

    constructor (data: string)
      ensures Valid() && Rest() == data
    {
      this.data := data;
      pos := 0;
    }

    /** io.ReadFull of a non-empty buffer. */
    method ReadFull(n: nat) returns (r: Read)
      requires Valid() && n > 0
      modifies this
      ensures Valid()
      ensures r == if |old(Rest())| == 0 then Eof
                   else if |old(Rest())| < n then UnexpectedEof else Full(old(Rest())[..n])
      ensures Rest() == if |old(Rest())| < n then "" else old(Rest())[n..]
    {
      if pos == |data| {
        return Eof;
      }
      if |data| - pos < n {
        pos := |data|;
        return UnexpectedEof;
      }
      r := Full(data[pos..pos + n]);
      pos := pos + n;
    }

    /** io.CopyN to nowhere; ok is false when fewer than n bytes were left. */
    method Discard(n: nat) returns (ok: bool)
      requires Valid()
      modifies this
      ensures Valid() && ok == (n <= |old(Rest())|)
      ensures Rest() == if ok then old(Rest())[n..] else ""
    {
      ok := n <= |data| - pos;
      pos := if ok then pos + n else |data|;
    }

    /** Everything an io.LimitReader over this reader yields. */
    method Limit(n: nat) returns (bytes: string)
      requires Valid()
      modifies this
      ensures Valid()
      ensures bytes == if n <= |old(Rest())| then old(Rest())[..n] else old(Rest())
    {
      var end := if n <= |data| - pos then pos + n else |data|;
      bytes := data[pos..end];
      pos := end;
    }
  }

  /** The member loop. Every turn consumes a whole header, so it ends. */
  method OpenDebData(r: Reader) returns (found: Result<DataMember, DebError>)
    requires r.Valid()
    modifies r
    ensures found == ReadDeb(old(r.Rest()))
  {
    hide TrimSpace, TrimRightSlash, ParseInt, Supported, CodecOf;
    var magic := r.ReadFull(|AR_MAGIC|);
    if !magic.Full? {
      return Err(MagicUnreadable);
    }
    if magic.bytes != AR_MAGIC {
      return Err(NotDebian);
    }
    ghost var start := r.Rest();
    while true
      invariant r.Valid() && FindData(r.Rest()) == FindData(start)
      decreases |r.Rest()|
    {
      var h := r.ReadFull(HEADER_LEN);
      match h {
        case Eof => return Err(NoDataMember);
        case UnexpectedEof => return Err(TruncatedHeader);
        case Full(hdr) =>
          if hdr[SIZE_END..HEADER_LEN] != TRAILER {
            return Err(MalformedHeader);
          }
          var name := TrimRightSlash(TrimSpace(hdr[..NAME_END]));
          var size := ParseInt(TrimSpace(hdr[SIZE_START..SIZE_END]));
          if size.None? || size.value < 0 {
            return Err(UnreadableSize(name));
          }
          if HasPrefix(name, "data.tar") {
            var codec := CodecOf(name);
            var payload := r.Limit(size.value);
            if !Supported(codec) {
              return Err(UnsupportedCodec(codec));
            }
            return Ok(DataMember(codec, payload));
          }
          var ok := r.Discard(size.value + size.value % 2);
          if !ok {
            return Err(SkipFailed(name));
          }
      }
    }
  }

  // ---------- The common ar layout, printed ----------

  /** meta is the mtime, uid, gid and mode fields, which are not read. slash: the name ends in "/". */
  datatype Member = Member(name: string, slash: bool, meta: string, body: string)

  function Spaces(n: nat): string {
    seq(n, i => ' ')
  }

  function PadTo(s: string, width: nat): string
    requires |s| <= width
  {
    s + Spaces(width - |s|)
  }

  function NameField(m: Member): string {
    m.name + if m.slash then "/" else ""
  }

  predicate Trimmed(s: string) {
    s != "" ==> !IsSpace(s[0]) && !IsSpace(s[|s| - 1])
  }

  predicate Printable(m: Member) {
    && |NameField(m)| <= NAME_END && Trimmed(m.name)
    && (m.name != "" ==> m.name[|m.name| - 1] != '/')
    && |m.meta| == SIZE_START - NAME_END
    && |m.body| < Pow10(SIZE_END - SIZE_START)
  }

  function HeaderOf(m: Member): string
    requires Printable(m)
  {
    DecWidth(|m.body|, SIZE_END - SIZE_START);
    PadTo(NameField(m), NAME_END) + m.meta + PadTo(Dec(|m.body|), SIZE_END - SIZE_START) + TRAILER
  }

  function Padding(m: Member): string {
    if |m.body| % 2 == 1 then "\n" else ""
  }

  function PrintFrom(ms: seq<Member>, i: nat): string
    requires i <= |ms| && forall m :: m in ms ==> Printable(m)
    decreases |ms| - i
  {
    if i == |ms| then "" else HeaderOf(ms[i]) + (ms[i].body + Padding(ms[i]) + PrintFrom(ms, i + 1))
  }

  function PrintAr(ms: seq<Member>): string
    requires forall m :: m in ms ==> Printable(m)
  {
    AR_MAGIC + PrintFrom(ms, 0)
  }

  predicate IsData(m: Member) {
    HasPrefix(m.name, "data.tar")
  }

  /** The first data member at or after position i, |ms| when there is none. */
  function FirstData(ms: seq<Member>, i: nat): (k: nat)
    requires i <= |ms|
    ensures i <= k <= |ms| && (k < |ms| ==> IsData(ms[k]))
    ensures forall j :: i <= j < k ==> !IsData(ms[j])
    decreases |ms| - i
  {
    if i == |ms| || IsData(ms[i]) then i else FirstData(ms, i + 1)
  }

  lemma {:induction false} TrimRightPadded(s: string, n: nat)
    requires s != "" ==> !IsSpace(s[|s| - 1])
    ensures TrimRightSpace(s + Spaces(n)) == s
  {
    if n == 0 {
      assert s + Spaces(0) == s;
    } else {
      var t := s + Spaces(n);
      assert t[|t| - 1] == ' ';
      assert t[..|t| - 1] == s + Spaces(n - 1);
      TrimRightPadded(s, n - 1);
    }
  }

  lemma {:induction false} TrimAllSpaces(n: nat)
    ensures TrimLeftSpace(Spaces(n)) == ""
  {
    if n > 0 {
      assert Spaces(n)[1..] == Spaces(n - 1);
      TrimAllSpaces(n - 1);
    }
  }

  lemma TrimPadded(s: string, width: nat)
    requires Trimmed(s) && |s| <= width
    ensures TrimSpace(PadTo(s, width)) == s
  {
    if s == "" {
      assert PadTo(s, width) == Spaces(width);
      TrimAllSpaces(width);
    } else {
      assert PadTo(s, width)[0] == s[0];
      TrimRightPadded(s, width - |s|);
    }
  }

  lemma SlashIsNoSpace()
    ensures !IsSpace('/')
  {
    assert '/' as int == 47;
  }

  lemma NameReads(m: Member)
    requires Printable(m)
    ensures TrimRightSlash(NameField(m)) == m.name && Trimmed(NameField(m))
  {
    if m.slash {
      var f := NameField(m);
      SlashIsNoSpace();
      assert f[|f| - 1] == '/' && f[..|f| - 1] == m.name;
      assert m.name != "" ==> f[0] == m.name[0];
    } else {
      assert NameField(m) == m.name;
    }
  }

  /** A printed header gives its member's name and size back. */
  lemma HeaderReads(m: Member)
    requires Printable(m)
    ensures |HeaderOf(m)| == HEADER_LEN && HeaderOf(m)[SIZE_END..] == TRAILER
    ensures MemberName(HeaderOf(m)) == m.name && MemberSize(HeaderOf(m)) == Some(|m.body|)
  {
    hide TrimSpace, TrimRightSlash, ParseInt, Dec, Trimmed, IsSpace;
    var width := SIZE_END - SIZE_START;
    DecWidth(|m.body|, width);
    var h := HeaderOf(m);
    assert h[..NAME_END] == PadTo(NameField(m), NAME_END);
    assert h[SIZE_START..SIZE_END] == PadTo(Dec(|m.body|), width);
    NameReads(m);
    TrimPadded(NameField(m), NAME_END);
    DecTrimmed(|m.body|);
    TrimPadded(Dec(|m.body|), width);
    assert Pow10(10) == 10_000_000_000;
    ParseDec(|m.body|);
  }

  lemma DecTrimmed(n: nat)
    ensures Trimmed(Dec(n))
  {
  }

  /** What the reader makes of a printed archive: the first data member, exactly. */
  function Expected(ms: seq<Member>, i: nat): Result<DataMember, DebError>
    requires i <= |ms|
  {
    var k := FirstData(ms, i);
    if k == |ms| then Err(NoDataMember)
    else if !Supported(CodecOf(ms[k].name)) then Err(UnsupportedCodec(CodecOf(ms[k].name)))
    else Ok(DataMember(CodecOf(ms[k].name), ms[k].body))
  }

  lemma {:induction false} FindPrinted(ms: seq<Member>, i: nat)
    requires i <= |ms| && forall m :: m in ms ==> Printable(m)
    ensures FindData(PrintFrom(ms, i)) == Expected(ms, i)
    decreases |ms| - i
  {
    hide HeaderOf, MemberName, MemberSize, CodecOf, Supported, Printable, Expected;
    ExpectedIs(ms, i);
    if i < |ms| {
      var m := ms[i];
      HeaderReads(m);
      var tail := PrintFrom(ms, i + 1);
      var rest := PrintFrom(ms, i);
      assert rest[..HEADER_LEN] == HeaderOf(m);
      var body := rest[HEADER_LEN..];
      assert body == m.body + Padding(m) + tail;
      if IsData(m) {
        assert body[..|m.body|] == m.body;
      } else {
        assert body[|m.body| + |m.body| % 2..] == tail;
        FindPrinted(ms, i + 1);
      }
    }
  }

  lemma ExpectedIs(ms: seq<Member>, i: nat)
    requires i <= |ms|
    ensures Expected(ms, i) ==
            if i == |ms| then Err(NoDataMember)
            else if !IsData(ms[i]) then Expected(ms, i + 1)
            else if !Supported(CodecOf(ms[i].name)) then Err(UnsupportedCodec(CodecOf(ms[i].name)))
            else Ok(DataMember(CodecOf(ms[i].name), ms[i].body))
  {
  }

  /** Reading inverts printing: the codec suffix and exactly the bytes of the first data member, or
      the report that there is none. */
  lemma {:induction false} ReadPrinted(ms: seq<Member>)
    requires forall m :: m in ms ==> Printable(m)
    ensures var k := FirstData(ms, 0);
            ReadDeb(PrintAr(ms)) ==
              if k == |ms| then Err(NoDataMember)
              else if !Supported(CodecOf(ms[k].name)) then Err(UnsupportedCodec(CodecOf(ms[k].name)))
              else Ok(DataMember(CodecOf(ms[k].name), ms[k].body))
  {
    hide FindData, PrintFrom, CodecOf, Supported;
    var s := PrintAr(ms);
    assert s[..|AR_MAGIC|] == AR_MAGIC && s[|AR_MAGIC|..] == PrintFrom(ms, 0);
    FindPrinted(ms, 0);
  }

  /** The codecs read: none, gzip, xz, zstd and bzip2. Whether the suffix follows a dot or not, exactly
      these are read and any other is refused by name. */
  lemma ReadsFiveCodecs(ms: seq<Member>, k: nat, codec: string)
    requires forall m :: m in ms ==> Printable(m)
    requires k < |ms| && forall j :: 0 <= j < k ==> !IsData(ms[j])
    requires ms[k].name == "data.tar." + codec || (ms[k].name == "data.tar" + codec && !HasPrefix(codec, "."))
    ensures ReadDeb(PrintAr(ms)) ==
            if codec == "" || codec == "gz" || codec == "xz" || codec == "zst" || codec == "bz2"
            then Ok(DataMember(codec, ms[k].body)) else Err(UnsupportedCodec(codec))
  {
    hide FindData, PrintAr, ReadDeb, Printable;
    var name := ms[k].name;
    assert name[..8] == "data.tar";
    assert name == "data.tar." + codec ==> name[8..] == "." + codec && ("." + codec)[1..] == codec;
    assert name == "data.tar" + codec ==> name[8..] == codec;
    assert IsData(ms[k]) && CodecOf(name) == codec;
    ReadPrinted(ms);
    assert FirstData(ms, 0) == k;
  }

  lemma {:induction false} FindPast(ms: seq<Member>, i: nat, rest: string)
    requires i <= |ms| && forall m :: m in ms ==> Printable(m)
    requires forall j :: i <= j < |ms| ==> !IsData(ms[j])
    ensures FindData(PrintFrom(ms, i) + rest) == FindData(rest)
    decreases |ms| - i
  {
    hide HeaderOf, MemberName, MemberSize, CodecOf, Supported, Printable;
    if i == |ms| {
      assert "" + rest == rest;
    } else {
      var m := ms[i];
      HeaderReads(m);
      var tail := PrintFrom(ms, i + 1) + rest;
      var all := PrintFrom(ms, i) + rest;
      assert all[..HEADER_LEN] == HeaderOf(m);
      var body := all[HEADER_LEN..];
      assert body == m.body + Padding(m) + tail;
      assert body[|m.body| + |m.body| % 2..] == tail;
      FindPast(ms, i + 1, rest);
    }
  }

  /** Whatever well-formed members come first: an archive that ends there has no data member, one that ends
      inside a header is cut off, a header must end as headers do, and its size must be a number that is not
      negative; a data member shorter than its size is read as far as it goes, and any other member must be
      there in full, padding included. */
  lemma ReadsPast(ms: seq<Member>, rest: string)
    requires forall m :: m in ms ==> Printable(m) && !IsData(m)
    ensures var r := ReadDeb(PrintAr(ms) + rest);
            && (|rest| == 0 ==> r == Err(NoDataMember))
            && (0 < |rest| < 60 ==> r == Err(TruncatedHeader))
            && (|rest| >= 60 && rest[58..60] != "`\n" ==> r == Err(MalformedHeader))
            && (|rest| >= 60 && rest[58..60] == "`\n" ==>
                  var name, size := MemberName(rest[..60]), ParseInt(TrimSpace(rest[48..58]));
                  && (size.None? || size.value < 0 ==> r == Err(UnreadableSize(name)))
                  && (size.Some? && size.value >= 0 && HasPrefix(name, "data.tar") && r.Ok? ==>
                        r.value.payload == rest[60..][..if size.value <= |rest| - 60 then size.value else |rest| - 60])
                  && (size.Some? && 0 <= |rest| - 60 < size.value + size.value % 2 && !HasPrefix(name, "data.tar") ==>
                        r == Err(SkipFailed(name))))
  {
    hide PrintFrom, Printable, TrimSpace, ParseInt, CodecOf, Supported, TrimRightSlash;
    var s := PrintAr(ms) + rest;
    assert s[..|AR_MAGIC|] == AR_MAGIC && s[|AR_MAGIC|..] == PrintFrom(ms, 0) + rest;
    FindPast(ms, 0, rest);
    if |rest| >= 60 {
      var hdr := rest[..60];
      assert hdr[58..] == rest[58..60] && hdr[48..58] == rest[48..58];
      assert rest[60..][..|rest| - 60] == rest[60..];
    }
  }

  /** Nothing is read that does not begin as an ar archive does. */
  lemma ReadsOnlyAr(s: string)
    ensures |s| < 8 ==> ReadDeb(s) == Err(MagicUnreadable)
    ensures |s| >= 8 && s[..8] != "!<arch>\n" ==> ReadDeb(s) == Err(NotDebian)
    ensures ReadDeb(s).Ok? ==> HasPrefix(s, "!<arch>\n")
  {
    hide FindData;
  }
}
