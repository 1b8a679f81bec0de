/** How requests are made: by the client library, and again by the host daemon when it
    passes a decoded request on to the device. */
module Relay {
  import opened CStrings
  import opened Wire

  /** The str field after strncpy of one byte less than its size into a zeroed struct. */
  function FitString(src: seq<bv8>): (s: Str)
    ensures CString(s) == Take(CString(src), 16)
    ensures 0 in s && s[16] == 0
    ensures forall i :: |CString(s)| <= i < STRING_SIZE ==> s[i] == 0
  {
    StrncpyText(src, 16, [0]);
    assert (Strncpy(src, 16) + [0])[16] == 0;
    Strncpy(src, 16) + [0]
  }

  function Flag(b: bool): bv8 {
    if b then 1 else 0
  }

  /** What the x86 HAL sends to the device for a decoded request; button reads are answered
      on the host and pass nothing on. */
  function Reencode(r: Request): (r': Request)
    requires !r.GetBtnStateReq?
  {
    match r
    case PrintReq(addr, str, line, pos) => PrintReq(addr, FitString(str), line, pos)
    case ClearReq(addr) => ClearReq(addr)
    case BacklightReq(addr, enable) => BacklightReq(addr, Flag(enable != 0))
  }

  /** Requests as the encoders leave them: text, then nothing but zeros, the last byte among
      them; enable 0 or 1. */
  predicate Canonical(r: Request) {
    match r
    case PrintReq(_, str, _, _) =>
      |CString(str)| <= 16 && forall i :: |CString(str)| <= i < STRING_SIZE ==> str[i] == 0
    case BacklightReq(_, enable) => enable <= 1
    case _ => true
  }

  lemma FitStringIsIdentity(s: Str)
    requires |CString(s)| <= 16
    ensures FitString(s) == s <==> forall i :: |CString(s)| <= i < STRING_SIZE ==> s[i] == 0
  {
    var f := FitString(s);
    assert CString(f) == CString(s);
    if forall i :: |CString(s)| <= i < STRING_SIZE ==> s[i] == 0 {
      forall i | 0 <= i < STRING_SIZE ensures f[i] == s[i] {
        if i < |CString(s)| {
          assert f[i] == CString(f)[i] == s[i];
        }
      }
      assert f == s;
    }
  }

  /** Relay transparency: a request passes through unchanged exactly when it is canonical. */
  lemma RelayTransparentIff(r: Request)
    requires !r.GetBtnStateReq?
    ensures Reencode(r) == r <==> Canonical(r)
  {
    match r
    case PrintReq(addr, str, line, pos) =>
      if |CString(str)| <= 16 {
        FitStringIsIdentity(str);
      } else {
        assert |CString(FitString(str))| <= 16;
      }
    case ClearReq(_) =>
    case BacklightReq(_, enable) =>
      assert enable <= 1 <==> enable == 0 || enable == 1;
  }

  /** Whatever was decoded, one pass makes it canonical, so a second changes nothing. */
  lemma RelayIdempotent(r: Request)
    requires !r.GetBtnStateReq?
    ensures Canonical(Reencode(r)) && Reencode(Reencode(r)) == Reencode(r)
  {
    RelayTransparentIff(Reencode(r));
  }

  /** What relaying does to the meaning of a request: the text is cut to 16 characters and
      enable becomes 0 or 1; nothing else. */
  lemma RelayMeaning(r: Request)
    requires !r.GetBtnStateReq?
    ensures Command(Reencode(r)) == Command(r) && Reencode(r).addr == r.addr
    ensures r.PrintReq? ==>
              && CString(Reencode(r).str) == Take(CString(r.str), 16) && 0 in Reencode(r).str
              && Reencode(r).line == r.line && Reencode(r).pos == r.pos
    ensures r.BacklightReq? ==> Reencode(r).enable <= 1 && (Reencode(r).enable != 0 <==> r.enable != 0)
  {
  }
}
