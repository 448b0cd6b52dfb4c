/** When the persistence check of `local/http/utils.rs` agrees with section 6.3 of RFC 7230. */
module Persistence {
  import opened CommaLists
  import opened DomainNames
  import opened HttpHeaders
  import opened Prelude

  /** The value lists the connection option; bytes that are no visible ASCII text list none. */
  predicate HasOption(v: Value, name: string) {
    v.Readable? && NamedIn(SplitComma(v.text), name)
  }

  predicate OptionIn(values: seq<Value>, name: string) {
    exists i :: 0 <= i < |values| && HasOption(values[i], name)
  }

  /** HTTP/1.1 and later versions keep connections unless told otherwise. */
  predicate KeepsUnlessTold(version: Version) {
    version == Http11 || version == Http2 || version == Http3
  }

  /** Whether the connection persists by section 6.3 of RFC 7230: not with the option `close`; otherwise from
      HTTP/1.1 on; otherwise in HTTP/1.0 with the option `keep-alive`. */
  predicate Persists(version: Version, h: Headers) {
    var own := GetAll(h, "Connection");
    && !OptionIn(own, "close")
    && (KeepsUnlessTold(version) || (version == Http10 && OptionIn(own, "keep-alive")))
  }

  /** The whole value is `close`. */
  predicate BareClose(v: Value) {
    v.Readable? && SameText(v.text, "close")
  }

  predicate SomeBareClose(values: seq<Value>) {
    exists i :: 0 <= i < |values| && BareClose(values[i])
  }

  /** Every value that lists `keep-alive` is followed by a bare `close`. */
  predicate KeepAlivesRevoked(values: seq<Value>) {
    forall i | 0 <= i < |values| && HasOption(values[i], "keep-alive") ::
      exists j :: i < j < |values| && BareClose(values[j])
  }

  /** What holds when no Connection value decides. */
  predicate Fallback(version: Version, h: Headers, checkProxy: bool) {
    var proxy := KeepAliveVal(GetAll(h, "Proxy-Connection"));
    if checkProxy && proxy.Some? then proxy.value else KeepsUnlessTold(version)
  }

  /** The headers for which the check and the standard agree. Where someone asks to close, nobody may ask to
      keep the connection later, and a bare `close` is needed unless closing is what remains otherwise. */
  predicate ChecksAsStandard(version: Version, h: Headers, checkProxy: bool) {
    var own, fallback := GetAll(h, "Connection"), Fallback(version, h, checkProxy);
    if OptionIn(own, "close") || version == Http09 then KeepAlivesRevoked(own) && (SomeBareClose(own) || !fallback)
    else OptionIn(own, "keep-alive") || fallback == KeepsUnlessTold(version)
  }

  lemma LetterOf(s: string, word: string, i: nat)
    requires Lower(s) == word && i < |s|
    requires forall k | 0 <= k < |word| :: 'a' <= word[k] <= 'z'
    ensures !Blank(s[i]) && s[i] != ','
  {
    hide Lower;
    assert LowerChar(s[i]) == word[i];
  }

  /** A bare `close` lists the option `close` and no other. */
  lemma BareCloseLists(v: Value, name: string)
    requires BareClose(v)
    ensures HasOption(v, name) <==> name == "close"
  {
    LowerNames();
    forall i | 0 <= i < |v.text|
      ensures !Blank(v.text[i]) && v.text[i] != ','
    {
      LetterOf(v.text, "close", i);
    }
    NoCommaNoSplit(v.text);
    assert Trim(v.text) == v.text;
    hide Lower, Trim, SplitComma;
    assert v.text in [v.text];
  }

  lemma VerdictIs(v: Value)
    ensures Verdict(v) == if BareClose(v) then Some(false) else if HasOption(v, "keep-alive") then Some(true) else None
  {
    LowerNames();
    hide Lower, Trim, SplitComma;
  }

  lemma RevokedSnoc(values: seq<Value>)
    requires values != []
    ensures var n := |values| - 1;
      && (BareClose(values[n]) ==> KeepAlivesRevoked(values) && SomeBareClose(values))
      && (!BareClose(values[n]) && HasOption(values[n], "keep-alive") ==> !KeepAlivesRevoked(values))
      && (!BareClose(values[n]) && !HasOption(values[n], "keep-alive") ==>
        && (KeepAlivesRevoked(values) <==> KeepAlivesRevoked(values[..n]))
        && (SomeBareClose(values) <==> SomeBareClose(values[..n]))
        && (OptionIn(values, "keep-alive") <==> OptionIn(values[..n], "keep-alive")))
  {
    var n := |values| - 1;
    hide HasOption, BareClose;
    assert forall i | 0 <= i < n :: values[..n][i] == values[i];
    if BareClose(values[n]) {
      BareCloseLists(values[n], "keep-alive");
      assert "keep-alive" != "close" by {
        assert |"keep-alive"| != |"close"|;
      }
      assert forall i | 0 <= i < |values| && HasOption(values[i], "keep-alive") :: i < n && BareClose(values[n]);
    } else if !HasOption(values[n], "keep-alive") {
      assert KeepAlivesRevoked(values[..n]) ==> KeepAlivesRevoked(values) by {
        if KeepAlivesRevoked(values[..n]) {
          forall i | 0 <= i < |values| && HasOption(values[i], "keep-alive")
            ensures exists j :: i < j < |values| && BareClose(values[j])
          {
            var j :| i < j < n && BareClose(values[..n][j]);
            assert BareClose(values[j]);
          }
        }
      }
    }
  }

  /** What the values together say. */
  lemma {:induction false} KeepAliveValIs(values: seq<Value>)
    ensures KeepAliveVal(values) ==
      if !KeepAlivesRevoked(values) then Some(true) else if SomeBareClose(values) then Some(false) else None
    ensures KeepAlivesRevoked(values) && !SomeBareClose(values) ==> !OptionIn(values, "keep-alive")
  {
    if values != [] {
      var n := |values| - 1;
      KeepAliveValIs(values[..n]);
      VerdictIs(values[n]);
      RevokedSnoc(values);
      hide HasOption, BareClose, Verdict;
    }
  }

  lemma BareCloseIn(values: seq<Value>)
    requires SomeBareClose(values)
    ensures OptionIn(values, "close")
  {
    var i :| 0 <= i < |values| && BareClose(values[i]);
    BareCloseLists(values[i], "close");
  }

  /** The check agrees with the standard exactly for the headers of `ChecksAsStandard`. */
  lemma AgreesWithStandardIff(version: Version, h: Headers, checkProxy: bool)
    ensures KeepsAlive(version, h, checkProxy) == Persists(version, h) <==> ChecksAsStandard(version, h, checkProxy)
  {
    var own := GetAll(h, "Connection");
    KeepAliveValIs(own);
    if SomeBareClose(own) {
      BareCloseIn(own);
    }
    hide OptionIn, SomeBareClose, KeepAliveVal, GetAll;
    if !KeepAlivesRevoked(own) {
      assert OptionIn(own, "keep-alive") by {
        RevokedWithout(own);
      }
    }
  }

  lemma RevokedWithout(values: seq<Value>)
    ensures !OptionIn(values, "keep-alive") ==> KeepAlivesRevoked(values)
  {
    hide HasOption;
  }

  /** `Connection: close, te` asks to close; the check of an HTTP/1.1 message keeps the connection. */
  lemma CloseAmongOthersIgnored(h: Headers)
    requires GetAll(h, "Connection") == [Readable("close, te")]
    ensures !Persists(Http11, h) && KeepsAlive(Http11, h, false)
  {
    hide KeepAlivesRevoked, KeepsAlive, SplitComma, Lower, Trim, GetAll, KeepAliveVal, SameText, HasOption;
    var v := Readable("close, te");
    CloseTeOptions();
    assert HasOption([v][0], "close");
    assert !SomeBareClose([v]);
    AgreesWithStandardIff(Http11, h, false);
  }

  lemma CloseTeOptions()
    ensures HasOption(Readable("close, te"), "close") && !SameText("close, te", "close")
  {
    LowerNames();
    CloseTeParts();
    hide SplitComma, Lower;
    assert Trim("close") == "close";
    assert "close" in SplitComma("close, te");
    assert |Lower("close, te")| == 9 && |Lower("close")| == 5;
  }

  lemma CloseTeParts()
    ensures SplitComma("close, te") == ["close", " te"]
  {
    NoCommaNoSplit("close");
    assert "close,"[..5] == "close" && "close, "[..6] == "close,";
    assert "close, t"[..7] == "close, " && "close, te"[..8] == "close, t";
    assert "" + [' '] == " " && " " + ['t'] == " t" && " t" + ['e'] == " te";
    assert SplitComma("close,") == ["close", ""];
    assert SplitComma("close, ") == ["close", " "];
    assert SplitComma("close, t") == ["close", " t"];
  }
}
