/** The surface monitor's in-memory logic from modules/web_monitor.py: the
    counted pause scope that lets sends pre-empt polling, the text
    normalisation and decision rule behind a send acknowledgement, the
    outgoing-message signature, the contact filter, the processed-signature
    cache with its keyword trigger, and @-mention detection. The browser
    itself is not modelled: whatever the monitor reads from the page arrives
    as a parameter. */
module WebMonitor {
  import opened PyStr

  // ---------------------------------------------------------------------
  // Acknowledgement text normalisation
  // ---------------------------------------------------------------------

  /** Every whitespace character is a plain space and no two whitespace
      characters are adjacent. */
  predicate Collapsed(s: string) {
    && (forall i :: 0 <= i < |s| && IsSpace(s[i]) ==> s[i] == ' ')
    && (forall i, j :: 0 <= i < |s| && 0 <= j < |s| && j == i + 1 ==> !IsSpace(s[i]) || !IsSpace(s[j]))
  }

  /** The non-whitespace characters of `s`, in order. */
  function NonSpace(s: string): (r: string)
    ensures |r| <= |s|
  {
    if s == [] then [] else (if IsSpace(s[0]) then [] else [s[0]]) + NonSpace(s[1..])
  }

  lemma {:induction false} NonSpaceConcat(a: string, b: string)
    ensures NonSpace(a + b) == NonSpace(a) + NonSpace(b)
  {
    if a == [] {
      assert a + b == b;
    } else {
      assert (a + b)[1..] == a[1..] + b;
      NonSpaceConcat(a[1..], b);
    }
  }

  lemma {:induction false} NonSpaceOfSpaces(s: string)
    requires AllSpace(s)
    ensures NonSpace(s) == []
  {
    if s != [] {
      NonSpaceOfSpaces(s[1..]);
    }
  }

  /** `re.sub(r"\s+", " ", s)`: every maximal run of whitespace becomes one
      space (`CollapseKeepsText` adds that the non-whitespace characters
      are kept in order and that trailing whitespace is kept as a space). */
  function CollapseWhitespace(s: string): (r: string)
    ensures Collapsed(r)
    ensures (r != [] && IsSpace(r[0])) <==> (s != [] && IsSpace(s[0]))
    ensures forall i :: 0 <= i < |r| ==> r[i] == ' ' || r[i] in s
    decreases |s|
  {
    if s == [] then []
    else if IsSpace(s[0]) then " " + CollapseWhitespace(s[1 + LeadingSpaceCount(s[1..])..])
    else [s[0]] + CollapseWhitespace(s[1..])
  }

  /** A text that starts with whitespace starts with a run of `n` whitespace
      characters, the run `CollapseWhitespace` replaces by one space. */
  lemma LeadingRun(s: string)
    requires s != [] && IsSpace(s[0])
    ensures var n := 1 + LeadingSpaceCount(s[1..]);
      n <= |s| && AllSpace(s[..n]) && s == s[..n] + s[n..]
  {
    var n := 1 + LeadingSpaceCount(s[1..]);
    forall i | 0 <= i < n
      ensures IsSpace(s[..n][i])
    {
      if i > 0 { assert s[..n][i] == s[1..][i - 1]; }
    }
  }

  /** Collapsing keeps the text's non-whitespace characters, in order. */
  lemma {:induction false} CollapseKeepsText(s: string)
    ensures NonSpace(CollapseWhitespace(s)) == NonSpace(s)
    decreases |s|
  {
    if s != [] {
      var r := CollapseWhitespace(s);
      if IsSpace(s[0]) {
        var n := 1 + LeadingSpaceCount(s[1..]);
        var t := s[n..];
        var rest := CollapseWhitespace(t);
        assert r == " " + rest;
        CollapseKeepsText(t);
        LeadingRun(s);
        NonSpaceConcat(s[..n], t);
        NonSpaceOfSpaces(s[..n]);
        assert r[1..] == rest;
      } else {
        var t := s[1..];
        var rest := CollapseWhitespace(t);
        assert r == [s[0]] + rest;
        CollapseKeepsText(t);
        assert r[1..] == rest;
      }
    }
  }

  /** Collapsing ends with whitespace exactly when the text does. */
  lemma {:induction false} CollapseKeepsTrailingSpace(s: string)
    ensures var r := CollapseWhitespace(s);
      (r != [] && IsSpace(r[|r| - 1])) <==> (s != [] && IsSpace(s[|s| - 1]))
    decreases |s|
  {
    if s != [] {
      var r := CollapseWhitespace(s);
      if IsSpace(s[0]) {
        var n := 1 + LeadingSpaceCount(s[1..]);
        var t := s[n..];
        var rest := CollapseWhitespace(t);
        assert r == " " + rest;
        CollapseKeepsTrailingSpace(t);
        if t == [] {
          assert rest == [];
          assert r[|r| - 1] == ' ';
          assert |s| > 1 ==> s[|s| - 1] == s[1..][|s| - 2];
        } else {
          assert rest != [] by { assert IsSpace(t[0]) || rest[0] == t[0]; }
          assert r[|r| - 1] == rest[|rest| - 1];
          assert s[|s| - 1] == t[|t| - 1];
        }
      } else {
        var t := s[1..];
        var rest := CollapseWhitespace(t);
        assert r == [s[0]] + rest;
        CollapseKeepsTrailingSpace(t);
        if t != [] {
          assert rest != [] by { assert IsSpace(t[0]) || rest[0] == t[0]; }
          assert r[|r| - 1] == rest[|rest| - 1];
          assert s[|s| - 1] == t[|t| - 1];
        }
      }
    }
  }

  /** Dropping the first character of a collapsed string leaves it collapsed. */
  lemma CollapsedTail(s: string)
    requires s != [] && Collapsed(s)
    ensures Collapsed(s[1..])
  {
    forall i | 0 <= i < |s[1..]| && IsSpace(s[1..][i])
      ensures s[1..][i] == ' ' && (i + 1 < |s[1..]| ==> !IsSpace(s[1..][i + 1]))
    {
      assert s[1..][i] == s[i + 1];
    }
  }

  /** A string that is already collapsed is left alone. */
  lemma {:induction false} CollapseUnchanged(s: string)
    requires Collapsed(s)
    ensures CollapseWhitespace(s) == s
    decreases |s|
  {
    if s != [] {
      CollapsedTail(s);
      CollapseUnchanged(s[1..]);
      if IsSpace(s[0]) {
        assert s[0] == ' ';
        assert |s| > 1 ==> !IsSpace(s[1]);
        assert LeadingSpaceCount(s[1..]) == 0;
        assert CollapseWhitespace(s) == " " + CollapseWhitespace(s[1..]);
      } else {
        assert CollapseWhitespace(s) == [s[0]] + CollapseWhitespace(s[1..]);
      }
      assert s == [s[0]] + s[1..];
    }
  }

  const ZeroWidthSpace: char := '\U{200B}'
  const ByteOrderMark: char := '\U{FEFF}'

  /** `_normalize_text_for_ack`: line-break variants become "\n", zero-width
      spaces and byte-order marks are deleted, whitespace runs collapse to
      one space, and the ends are trimmed. */
  function NormalizeTextForAck(text: string): (r: string)
    ensures r == [] || (!IsSpace(r[0]) && !IsSpace(r[|r| - 1]))
    ensures Collapsed(r)
    ensures ZeroWidthSpace !in r && ByteOrderMark !in r
  {
    var a := ReplaceAll(ReplaceAll(text, "\r\n", "\n"), "\r", "\n");
    var b := ReplaceAll(ReplaceAll(a, [ZeroWidthSpace], ""), [ByteOrderMark], "");
    var c := CollapseWhitespace(b);
    NormalizeFacts(a, b, c);
    Strip(c)
  }

  lemma NormalizeFacts(a: string, b: string, c: string)
    requires b == ReplaceAll(ReplaceAll(a, [ZeroWidthSpace], ""), [ByteOrderMark], "")
    requires c == CollapseWhitespace(b)
    ensures Collapsed(Strip(c))
    ensures ZeroWidthSpace !in Strip(c) && ByteOrderMark !in Strip(c)
  {
    var a1 := ReplaceAll(a, [ZeroWidthSpace], "");
    ReplaceCharRemoves(a, ZeroWidthSpace, "");
    ReplaceCharRemoves(a1, ByteOrderMark, "");
    ReplaceKeepsAbsent(a1, [ByteOrderMark], "", ZeroWidthSpace);
    var r := Strip(c);
    var n := LeadingSpaceCount(c);
    forall i | 0 <= i < |r| && IsSpace(r[i])
      ensures r[i] == ' ' && (i + 1 < |r| ==> !IsSpace(r[i + 1]))
    {
      assert r[i] == c[n + i];
      if i + 1 < |r| { assert r[i + 1] == c[n + i + 1]; }
    }
    forall i | 0 <= i < |r| ensures r[i] != ZeroWidthSpace && r[i] != ByteOrderMark {
      assert r[i] == c[n + i];
    }
  }

  /** A trimmed, collapsed text without zero-width characters is already normal. */
  lemma NormalFixed(r: string)
    requires r == [] || (!IsSpace(r[0]) && !IsSpace(r[|r| - 1]))
    requires Collapsed(r)
    requires ZeroWidthSpace !in r && ByteOrderMark !in r
    ensures NormalizeTextForAck(r) == r
  {
    assert IsSpace('\r');
    assert forall i :: 0 <= i < |r| ==> r[i] != '\r';
    ReplaceAllAbsent(r, "\r\n", "\n");
    ReplaceAllAbsent(r, "\r", "\n");
    ReplaceAllAbsent(r, [ZeroWidthSpace], "");
    ReplaceAllAbsent(r, [ByteOrderMark], "");
    var a := ReplaceAll(ReplaceAll(r, "\r\n", "\n"), "\r", "\n");
    assert a == r;
    var b := ReplaceAll(ReplaceAll(a, [ZeroWidthSpace], ""), [ByteOrderMark], "");
    assert b == r;
    CollapseUnchanged(r);
    StripUnchanged(r);
  }

  /** Normalising twice gives the same text as normalising once. */
  lemma NormalizeIdempotent(text: string)
    ensures NormalizeTextForAck(NormalizeTextForAck(text)) == NormalizeTextForAck(text)
  {
    NormalFixed(NormalizeTextForAck(text));
  }

  // ---------------------------------------------------------------------
  // Acknowledgement decision
  // ---------------------------------------------------------------------

  /** `(message_count, last_outgoing_text)` as `_get_last_outgoing_signature` reports it. */
  datatype Signature = Signature(total: int, text: string)

  /** The poll at index `i` of an acknowledgement wait sees a signature that
      differs both from the one taken before the send and from the one seen
      by the previous poll, and whose normalised text contains the expected
      text. */
  predicate AckAt(expectedNorm: string, before: Signature, observed: seq<Signature>, i: nat)
    requires i < |observed|
  {
    && observed[i] != before
    && observed[i] != (if i == 0 then before else observed[i - 1])
    && ShowsText(observed[i], expectedNorm)
  }

  /** The normalised text of a signature contains the expected text
      (`expected_norm in after_norm`). */
  predicate ShowsText(sig: Signature, expectedNorm: string) {
    Contains(NormalizeTextForAck(sig.text), expectedNorm)
  }

  /** The decision `_wait_for_outgoing_ack` takes over the signatures its
      polls read before the deadline (`observed`, oldest first): the polls
      are tried in order and the first one that acknowledges ends the wait. */
  predicate AckReceived(expectedText: string, before: Signature, observed: seq<Signature>) {
    var expectedNorm := NormalizeTextForAck(expectedText);
    expectedNorm != [] && AnyFrom(AckTest(expectedNorm, before, observed), 0, |observed|)
  }

  /** `AckAt` as a test on poll indices. */
  function AckTest(expectedNorm: string, before: Signature, observed: seq<Signature>): nat -> bool {
    (i: nat) => i < |observed| && AckAt(expectedNorm, before, observed, i)
  }

  /** A poll that acknowledges is found by the front-to-back scan. */
  lemma AckAtReceived(expectedText: string, before: Signature, observed: seq<Signature>, i: nat)
    requires NormalizeTextForAck(expectedText) != []
    requires i < |observed| && AckAt(NormalizeTextForAck(expectedText), before, observed, i)
    ensures AckReceived(expectedText, before, observed)
  {
    var test := AckTest(NormalizeTextForAck(expectedText), before, observed);
    assert test(i);
    AnyFromExists(test, 0, |observed|);
  }

  /** The scan only succeeds at a poll that acknowledges. */
  lemma ReceivedAckAt(expectedText: string, before: Signature, observed: seq<Signature>)
    requires AckReceived(expectedText, before, observed)
    ensures exists i: nat :: i < |observed| && AckAt(NormalizeTextForAck(expectedText), before, observed, i)
  {
    var test := AckTest(NormalizeTextForAck(expectedText), before, observed);
    AnyFromExists(test, 0, |observed|);
    var j: nat :| j < |observed| && test(j);
  }

  /** An acknowledgement means: the expected text is not blank after
      normalisation, and some poll saw a fresh signature showing it. */
  lemma AckReceivedMeans(expectedText: string, before: Signature, observed: seq<Signature>)
    ensures AckReceived(expectedText, before, observed) <==>
              var expectedNorm := NormalizeTextForAck(expectedText);
              expectedNorm != [] && exists i: nat :: i < |observed| && AckAt(expectedNorm, before, observed, i)
  {
    var expectedNorm := NormalizeTextForAck(expectedText);
    if AckReceived(expectedText, before, observed) {
      ReceivedAckAt(expectedText, before, observed);
    } else if expectedNorm != [] && exists i: nat :: i < |observed| && AckAt(expectedNorm, before, observed, i) {
      var i: nat :| i < |observed| && AckAt(expectedNorm, before, observed, i);
      AckAtReceived(expectedText, before, observed, i);
    }
  }

  /** `_wait_for_outgoing_ack`: poll until a fresh signature shows the sent text.
      An expected text that normalises to nothing is never acknowledged. */
  method WaitForOutgoingAck(expectedText: string, before: Signature, observed: seq<Signature>)
    returns (acked: bool)
    ensures acked <==> AckReceived(expectedText, before, observed)
  {
    var expectedNorm := NormalizeTextForAck(expectedText);
    if expectedNorm == [] {
      return false;
    }
    var lastSeen := before;
    var i := 0;
    while i < |observed|
      invariant 0 <= i <= |observed|
      invariant lastSeen == if i == 0 then before else observed[i - 1]
      invariant AnyFrom(AckTest(expectedNorm, before, observed), 0, |observed|)
                == AnyFrom(AckTest(expectedNorm, before, observed), i, |observed|)
    {
      var after := observed[i];
      var changed := after != before && after != lastSeen;
      if changed && ShowsText(after, expectedNorm) {
        assert AckAt(expectedNorm, before, observed, i);
        return true;
      }
      assert !AckAt(expectedNorm, before, observed, i);
      lastSeen := after;
      i := i + 1;
    }
    return false;
  }

  /** A wait whose polls only ever see the signature taken before the send
      fails: an identical older message is never mistaken for the new one. */
  lemma StaleSignatureNeverAcks(expectedText: string, before: Signature, observed: seq<Signature>)
    requires forall i :: 0 <= i < |observed| ==> observed[i] == before
    ensures !AckReceived(expectedText, before, observed)
  {
    AckReceivedMeans(expectedText, before, observed);
  }

  // ---------------------------------------------------------------------
  // Outgoing-message signature
  // ---------------------------------------------------------------------

  /** One message element of the open chat: its `class` attribute and its
      text as `_extract_message_text` returns it (already stripped). */
  datatype MessageElement = MessageElement(cls: string, text: string)

  /** `_is_outgoing_message_el` exactly as written: `" me"` is searched in the
      padded class string, which also matches every class word that merely
      starts with "me", such as "message". */
  predicate IsOutgoingClassAsWritten(cls: string) {
    var c := Lower(cls);
    Contains(" " + c + " ", " me") || Contains(c, "from_me") || Contains(c, "self")
  }

  /** `_is_outgoing_message_el` as intended: `me` must be a whole class token. */
  predicate IsOutgoingClass(cls: string) {
    var c := Lower(cls);
    Contains(" " + c + " ", " me ") || Contains(c, "from_me") || Contains(c, "self")
  }

  lemma {:induction false} LowerConcat(a: string, b: string)
    ensures Lower(a + b) == Lower(a) + Lower(b)
  {
    assert forall i :: 0 <= i < |a + b| ==> Lower(a + b)[i] == (Lower(a) + Lower(b))[i];
  }

  /** As written, every class whose first word starts with "me" counts as
      outgoing, so the page's default message class "message ng-scope"
      marks incoming and outgoing messages alike. */
  lemma {:induction false} AsWrittenMatchesMePrefix(rest: string)
    ensures IsOutgoingClassAsWritten("me" + rest)
  {
    LowerConcat("me", rest);
    assert Lower("me") == "me";
    var padded := " " + Lower("me" + rest) + " ";
    assert padded[0..3] == " me";
    assert OccursAt(padded, " me", 0);
  }

  lemma AsWrittenMatchesMessageClass()
    ensures IsOutgoingClassAsWritten("message ng-scope")
  {
    assert "message ng-scope" == "me" + "ssage ng-scope";
    AsWrittenMatchesMePrefix("ssage ng-scope");
  }

  /** In `" " + a + " " + b + " "` with space-free words `a` and `b`, the
      only spaces are the three separators. */
  lemma SpacesOfTwoWords(a: string, b: string, k: int)
    requires ' ' !in a && ' ' !in b
    requires 0 <= k < |a| + |b| + 3
    requires (" " + a + " " + b + " ")[k] == ' '
    ensures k == 0 || k == |a| + 1 || k == |a| + |b| + 2
  {
  }

  /** The whole-token test finds "me" in a two-word class only when one of
      the words is "me". */
  lemma MeTokenOfTwoWords(a: string, b: string)
    requires ' ' !in a && ' ' !in b
    ensures Contains(" " + a + " " + b + " ", " me ") ==> a == "me" || b == "me"
  {
    var p := " " + a + " " + b + " ";
    if Contains(p, " me ") {
      var i: nat :| i <= |p| && OccursAt(p, " me ", i);
      var w := p[i..i + 4];
      assert w == " me ";
      assert p[i] == w[0] && p[i + 1] == w[1] && p[i + 2] == w[2] && p[i + 3] == w[3];
      SpacesOfTwoWords(a, b, i);
      SpacesOfTwoWords(a, b, i + 3);
      assert p[|a| + 1] == ' ';
      if i == 0 {
        if |a| == 2 {
          assert a == [p[1], p[2]];
        }
      } else {
        assert i == |a| + 1 && |b| == 2;
        assert b == [p[i + 1], p[i + 2]];
      }
    }
  }

  /** "me" is not a word of the default message class. */
  lemma DefaultClassHasNoMeToken()
    ensures !Contains(" message ng-scope ", " me ")
  {
    assert ' ' !in "message" && ' ' !in "ng-scope";
    MeTokenOfTwoWords("message", "ng-scope");
    assert "message" != "me" && "ng-scope" != "me";
    assert " message ng-scope " == " " + "message" + " " + "ng-scope" + " ";
  }

  /** The default message class names neither "from_me" nor "self". */
  lemma DefaultClassHasNoSelfMarker()
    ensures !Contains("message ng-scope", "from_me") && !Contains("message ng-scope", "self")
  {
    var m := "message ng-scope";
    assert 'f' !in m && 'l' !in m;
    if Contains(m, "from_me") {
      ContainsHasChar(m, "from_me", 0);
    }
    if Contains(m, "self") {
      ContainsHasChar(m, "self", 2);
    }
  }

  /** With the whole-token test, the default class of an incoming message is
      not outgoing. */
  lemma DefaultClassNotOutgoing()
    ensures !IsOutgoingClass("message ng-scope")
  {
    var m := "message ng-scope";
    assert Lower(m) == m;
    assert " " + m + " " == " message ng-scope ";
    DefaultClassHasNoMeToken();
    DefaultClassHasNoSelfMarker();
  }

  /** With the whole-token test, adding the token "me" makes any class outgoing. */
  lemma {:induction false} MeTokenMakesOutgoing(cls: string)
    ensures IsOutgoingClass(cls + " me")
  {
    LowerConcat(cls, " me");
    assert Lower(" me") == " me";
    var q := " " + Lower(cls + " me") + " ";
    assert q[|q| - 4..] == " me ";
    assert OccursAt(q, " me ", |q| - 4);
  }

  /** The whole-token test is stricter: every class it accepts, the
      substring test accepts too. */
  lemma IntendedImpliesAsWritten(cls: string)
    ensures IsOutgoingClass(cls) ==> IsOutgoingClassAsWritten(cls)
  {
    var p := " " + Lower(cls) + " ";
    if Contains(p, " me ") {
      ContainsPrefix(p, " me ", 3);
      assert " me "[..3] == " me";
    }
  }

  /** The last element whose class passes the test `outgoing` is at index `i`. */
  predicate LastOutgoingAt(es: seq<MessageElement>, outgoing: string -> bool, i: int) {
    0 <= i < |es| && outgoing(es[i].cls)
    && forall j :: i < j < |es| ==> !outgoing(es[j].cls)
  }

  /** The last element with non-empty text is at index `i`. */
  predicate LastTextAt(es: seq<MessageElement>, i: int) {
    0 <= i < |es| && es[i].text != ""
    && forall j :: i < j < |es| ==> es[j].text == ""
  }

  predicate NoOutgoing(es: seq<MessageElement>, outgoing: string -> bool) {
    forall i :: 0 <= i < |es| ==> !outgoing(es[i].cls)
  }

  /** Reverse search for the last element whose class passes `outgoing`
      (`IsOutgoingClassAsWritten` in the source, `IsOutgoingClass` as intended). */
  function LastOutgoingIndex(es: seq<MessageElement>, outgoing: string -> bool): (r: Option<nat>)
    ensures r.Some? ==> LastOutgoingAt(es, outgoing, r.value)
    ensures r.None? ==> NoOutgoing(es, outgoing)
  {
    if es == [] then None
    else if outgoing(es[|es| - 1].cls) then Some(|es| - 1)
    else LastOutgoingIndex(es[..|es| - 1], outgoing)
  }

  /** Reverse search for the last element with text. */
  function LastTextIndex(es: seq<MessageElement>): (r: Option<nat>)
    ensures r.Some? ==> LastTextAt(es, r.value)
    ensures r.None? ==> forall i :: 0 <= i < |es| ==> es[i].text == ""
  {
    if es == [] then None
    else if es[|es| - 1].text != "" then Some(|es| - 1)
    else LastTextIndex(es[..|es| - 1])
  }

  /** `_get_last_outgoing_signature` over the message elements of the page,
      with `outgoing` as the class test: the element count, with the text of
      the last outgoing element, else of the last element that has text,
      else "". */
  function LastOutgoingSignature(es: seq<MessageElement>, outgoing: string -> bool): (sig: Signature)
    ensures sig.total == |es|
    ensures forall i :: LastOutgoingAt(es, outgoing, i) ==> sig.text == es[i].text
    ensures NoOutgoing(es, outgoing) ==> forall i :: LastTextAt(es, i) ==> sig.text == es[i].text
    ensures NoOutgoing(es, outgoing) && (forall i :: 0 <= i < |es| ==> es[i].text == "") ==> sig.text == ""
  {
    match LastOutgoingIndex(es, outgoing)
    case Some(i) => Signature(|es|, es[i].text)
    case None =>
      match LastTextIndex(es)
      case Some(i) => Signature(|es|, es[i].text)
      case None => Signature(|es|, "")
  }

  /** The default message class of the page. */
  const DefaultMessageClass: string := "message ng-scope"

  /** As written, on a page whose elements all carry the default class the
      signature is the last element's text, even an empty one: the fallback
      to the last non-empty text never runs. */
  lemma AsWrittenSignatureIsLastElement(es: seq<MessageElement>)
    requires es != []
    requires forall i :: 0 <= i < |es| ==> es[i].cls == DefaultMessageClass
    ensures LastOutgoingSignature(es, IsOutgoingClassAsWritten) == Signature(|es|, es[|es| - 1].text)
  {
    AsWrittenMatchesMessageClass();
  }

  /** With the whole-word test, the same page shows its last non-empty text. */
  lemma IntendedSignatureSkipsEmptyLast(es: seq<MessageElement>)
    requires forall i :: 0 <= i < |es| ==> es[i].cls == DefaultMessageClass
    ensures forall i :: LastTextAt(es, i) ==> LastOutgoingSignature(es, IsOutgoingClass).text == es[i].text
  {
    DefaultClassNotOutgoing();
    assert NoOutgoing(es, IsOutgoingClass);
  }

  /** The two tests disagree on the page `[("message ng-scope", "hello"),
      ("message ng-scope", "")]`. */
  lemma SignatureCounterexample()
    ensures var es := [MessageElement(DefaultMessageClass, "hello"), MessageElement(DefaultMessageClass, "")];
      && LastOutgoingSignature(es, IsOutgoingClassAsWritten) == Signature(2, "")
      && LastOutgoingSignature(es, IsOutgoingClass) == Signature(2, "hello")
  {
    var es := [MessageElement(DefaultMessageClass, "hello"), MessageElement(DefaultMessageClass, "")];
    AsWrittenSignatureIsLastElement(es);
    IntendedSignatureSkipsEmptyLast(es);
    assert LastTextAt(es, 0);
  }

  // ---------------------------------------------------------------------
  // Contact filter, keyword trigger and @-mentions
  // ---------------------------------------------------------------------

  /** Constructor validation of `contact_list_mode`: lowercased, and anything
      but "blacklist" or "whitelist" becomes "blacklist". */
  function ValidContactListMode(configured: string): (mode: string)
    ensures mode == "blacklist" || mode == "whitelist"
    ensures Lower(configured) == "whitelist" <==> mode == "whitelist"
  {
    var m := Lower(configured);
    if m == "blacklist" || m == "whitelist" then m else "blacklist"
  }

  /** Some keyword occurs in the text. */
  predicate AnyKeywordIn(keywords: seq<string>, text: string) {
    exists k :: k in keywords && Contains(text, k)
  }

  /** The keyword check of `process_chat_item`: with no keywords every
      message triggers a reply, otherwise the first keyword found in the
      text does. */
  method KeywordTriggered(keywords: seq<string>, text: string) returns (triggered: bool)
    ensures triggered <==> keywords == [] || AnyKeywordIn(keywords, text)
  {
    if keywords == [] {
      return true;
    }
    triggered := false;
    var i := 0;
    while i < |keywords|
      invariant 0 <= i <= |keywords|
      invariant forall j :: 0 <= j < i ==> !Contains(text, keywords[j])
    {
      if Contains(text, keywords[i]) {
        triggered := true;
        break;
      }
      i := i + 1;
    }
  }

  predicate IsAtSign(c: char) {
    c == '@' || c == '\U{FF20}'
  }

  /** The pattern `[@＠]\s*<nick>` matches with its at-sign at `i` and the
      nickname starting at `k`. */
  predicate MentionMatch(t: string, nick: string, i: int, k: int) {
    0 <= i < k <= |t| && IsAtSign(t[i]) && AllSpace(t[i + 1..k]) && StartsWith(t[k..], nick)
  }

  /** Because the nickname starts with a non-space, the optional whitespace
      can only end at the first non-space after the at-sign. */
  lemma MentionAtFirstNonSpace(t: string, nick: string, i: int, k: int)
    requires nick != [] && !IsSpace(nick[0])
    requires MentionMatch(t, nick, i, k)
    ensures k == i + 1 + LeadingSpaceCount(t[i + 1..])
  {
    var u := t[i + 1..];
    var n := LeadingSpaceCount(u);
    var m := k - i - 1;
    assert t[k..][0] == nick[0];
    assert u[m] == t[k];
    if n < m {
      assert false;
    }
  }

  /** Scan for a mention whose at-sign is at `i` or later. */
  function MentionFrom(t: string, nick: string, i: nat): (r: bool)
    requires nick != [] && !IsSpace(nick[0])
    ensures r <==> exists j, k :: i <= j && MentionMatch(t, nick, j, k)
    decreases |t| - i
  {
    if i >= |t| then false
    else
      var k := i + 1 + LeadingSpaceCount(t[i + 1..]);
      var here := IsAtSign(t[i]) && StartsWith(t[k..], nick);
      MentionFromStep(t, nick, i, k, here);
      here || MentionFrom(t, nick, i + 1)
  }

  lemma MentionFromStep(t: string, nick: string, i: nat, k: int, here: bool)
    requires nick != [] && !IsSpace(nick[0])
    requires i < |t| && k == i + 1 + LeadingSpaceCount(t[i + 1..])
    requires here == (IsAtSign(t[i]) && StartsWith(t[k..], nick))
    ensures here <==> exists k' :: MentionMatch(t, nick, i, k')
  {
    if here {
      assert t[i + 1..k] == t[i + 1..][..k - i - 1];
      assert MentionMatch(t, nick, i, k);
    }
    forall k' | MentionMatch(t, nick, i, k') ensures here {
      MentionAtFirstNonSpace(t, nick, i, k');
    }
  }

  /** `_is_bot_mentioned_in_text`: never for a blank nickname; otherwise an
      at-sign (half- or full-width), optional whitespace, then the stripped
      nickname, anywhere in the text. */
  function IsBotMentionedInText(text: string, nickname: string): (r: bool)
    ensures Strip(nickname) == [] ==> !r
    ensures Strip(nickname) != [] ==> (r <==> exists i, k :: MentionMatch(text, Strip(nickname), i, k))
  {
    var nick := Strip(nickname);
    if nick == [] then false else MentionFrom(text, nick, 0)
  }

  // ---------------------------------------------------------------------
  // The monitor object
  // ---------------------------------------------------------------------

  /** The `web_monitor` configuration keys this model reads; `None` is an absent key. */
  datatype MonitorConfig = MonitorConfig(
    triggerKeywords: Option<seq<string>>,
    contactListMode: Option<string>,
    contactWhitelist: Option<seq<string>>,
    contactBlacklist: Option<seq<string>>,
    groupMentionRequired: Option<bool>,
    botGroupNickname: Option<string>)

  const DefaultBotGroupNickname: string := "机器人小助手botAI"

  /** Size bound of the processed-signature cache. */
  const SignatureCacheLimit: nat := 1000

  /** The key under which an accepted incoming message is remembered. */
  function MessageSignature(contact: string, text: string): (r: string)
    ensures |r| == |contact| + 2 + |text|
    ensures r[..|contact|] == contact && r[|r| - |text|..] == text
  {
    contact + "::" + text
  }

  /** How `process_chat_item` ends. Only `Replied` makes it return True. */
  datatype ChatOutcome =
    | Paused        // a send holds the pause scope
    | Filtered      // contact rejected by the white- or blacklist
    | OpenFailed    // clicking the chat or waiting for it to load failed
    | NoMessage     // no last received message could be read
    | AlreadySeen   // signature already in the cache
    | NotMentioned  // group message without an @-mention of the bot
    | NotTriggered  // no trigger keyword in the text
    | Replied       // the reply callback was invoked

  class WebMonitor {
    var pauseCount: int
    var pauseEvent: bool
    var processedSignatures: set<string>

    const triggerKeywords: seq<string>
    const contactListMode: string
    const contactWhitelist: seq<string>
    const contactBlacklist: seq<string>
    const groupMentionRequired: bool
    const botGroupNickname: string

    ghost predicate Valid()
      reads this
    {
      && pauseCount >= 0
      && (pauseEvent <==> pauseCount > 0)
      && |processedSignatures| <= SignatureCacheLimit
      && (contactListMode == "blacklist" || contactListMode == "whitelist")
    }

    /** The configuration part of `WebMonitor.__init__`. */
    constructor (config: MonitorConfig)
      ensures Valid()
      ensures pauseCount == 0 && !pauseEvent && processedSignatures == {}
      ensures triggerKeywords == config.triggerKeywords.GetOr([])
      ensures contactListMode == ValidContactListMode(config.contactListMode.GetOr("blacklist"))
      ensures contactWhitelist == config.contactWhitelist.GetOr([])
      ensures contactBlacklist == config.contactBlacklist.GetOr([])
      ensures groupMentionRequired == config.groupMentionRequired.GetOr(true)
      ensures botGroupNickname == config.botGroupNickname.GetOr(DefaultBotGroupNickname)
    {
      pauseCount := 0;
      pauseEvent := false;
      processedSignatures := {};
      triggerKeywords := config.triggerKeywords.GetOr([]);
      contactListMode := ValidContactListMode(config.contactListMode.GetOr("blacklist"));
      contactWhitelist := config.contactWhitelist.GetOr([]);
      contactBlacklist := config.contactBlacklist.GetOr([]);
      groupMentionRequired := config.groupMentionRequired.GetOr(true);
      botGroupNickname := config.botGroupNickname.GetOr(DefaultBotGroupNickname);
    }

    /** Entering `_pause_monitoring`. */
    method EnterPause()
      requires Valid()
      modifies this`pauseCount, this`pauseEvent
      ensures Valid()
      ensures pauseCount == old(pauseCount) + 1 && pauseEvent
    {
      pauseCount := pauseCount + 1;
      pauseEvent := true;
    }

    /** Leaving `_pause_monitoring`: the flag is cleared only when the last
        open scope closes, and the counter never goes below zero. */
    method ExitPause()
      requires Valid()
      modifies this`pauseCount, this`pauseEvent
      ensures Valid()
      ensures pauseCount == if old(pauseCount) > 0 then old(pauseCount) - 1 else 0
      ensures pauseEvent <==> old(pauseCount) > 1
    {
      pauseCount := pauseCount - 1;
      if pauseCount <= 0 {
        pauseCount := 0;
        pauseEvent := false;
      }
    }

    /** The poll loop runs a cycle only when no send holds the pause scope
        and it obtained the driver lock within its timeout. */
    predicate PollCycleRuns(lockAcquired: bool)
      reads this
      requires Valid()
      ensures PollCycleRuns(lockAcquired) ==> pauseCount == 0 && lockAcquired
    {
      !pauseEvent && lockAcquired
    }

    /** `_should_process_contact`. */
    predicate ShouldProcessContact(contact: string): (b: bool)
      ensures contact in contactWhitelist && contact !in contactBlacklist ==> b
      ensures contact !in contactWhitelist && contact in contactBlacklist ==> !b
    {
      if contactListMode == "whitelist" then contact in contactWhitelist
      else contact !in contactBlacklist
    }

    /** `send_message`: the keystrokes are abstracted into `typed` (contact
        found, input box found, text entered). The pause scope is held for
        the duration and released on every path. */
    method SendMessage(contact: string, message: string, loggedIn: bool, typed: bool)
      returns (ok: bool)
      requires Valid()
      modifies this`pauseCount, this`pauseEvent
      ensures Valid()
      ensures pauseCount == old(pauseCount) && pauseEvent == old(pauseEvent)
      ensures ok == (loggedIn && typed)
    {
      if !loggedIn {
        return false;
      }
      EnterPause();
      ok := typed;
      ExitPause();
    }

    /** `send_message_with_ack`. With a non-positive timeout it is plain
        `send_message`. Otherwise it records the signature before sending,
        sends inside a nested pause scope, and waits for the acknowledgement
        while polling stays paused. A missing acknowledgement still counts as
        success (soft success), so `ok` never depends on `observed`. */
    method SendMessageWithAck(contact: string, message: string, ackTimeoutSec: real,
                              loggedIn: bool, typed: bool,
                              pageBefore: seq<MessageElement>, observed: seq<Signature>)
      returns (ok: bool, acked: bool)
      requires Valid()
      modifies this`pauseCount, this`pauseEvent
      ensures Valid()
      ensures pauseCount == old(pauseCount) && pauseEvent == old(pauseEvent)
      ensures ok == (loggedIn && typed)
      ensures acked <==> ackTimeoutSec > 0.0 && ok
                          && AckReceived(message, LastOutgoingSignature(pageBefore, IsOutgoingClassAsWritten), observed)
    {
      if ackTimeoutSec <= 0.0 {
        ok := SendMessage(contact, message, loggedIn, typed);
        acked := false;
        return;
      }
      if !loggedIn {
        return false, false;
      }
      EnterPause();
      var before := LastOutgoingSignature(pageBefore, IsOutgoingClassAsWritten);
      ok := SendMessage(contact, message, loggedIn, typed);
      if !ok {
        ExitPause();
        return false, false;
      }
      // the inner scope has closed, the outer one still keeps polling paused
      assert pauseEvent && !PollCycleRuns(true);
      acked := WaitForOutgoingAck(message, before, observed);
      ExitPause();
      ok := true;
    }

    /** The condition under which `process_chat_item` gets as far as the
        signature check. */
    predicate ReachesSignatureCheck(nameText: string, checkOnlyNew: bool, chatOpened: bool, lastMessageText: string)
      reads this
    {
      && !pauseEvent
      && ShouldProcessContact(Strip(nameText))
      && (checkOnlyNew || chatOpened)
      && lastMessageText != ""
    }

    /** `process_chat_item` for a chat item whose name text is `nameText`.
        Page reads arrive as parameters: whether clicking the chat and
        waiting for it succeeded, the last received message, and the group
        detection verdict. */
    method ProcessChatItem(nameText: string, checkOnlyNew: bool, chatOpened: bool,
                           lastMessageText: string, isGroup: bool)
      returns (outcome: ChatOutcome)
      requires Valid()
      modifies this`processedSignatures
      ensures Valid()
      ensures outcome == Paused <==> old(pauseEvent)
      ensures !old(pauseEvent) ==> (outcome == Filtered <==> !ShouldProcessContact(Strip(nameText)))
      ensures !ReachesSignatureCheck(nameText, checkOnlyNew, chatOpened, lastMessageText) ==>
                processedSignatures == old(processedSignatures)
                && outcome in {Paused, Filtered, OpenFailed, NoMessage}
      ensures ReachesSignatureCheck(nameText, checkOnlyNew, chatOpened, lastMessageText) ==>
                var sig := MessageSignature(Strip(nameText), lastMessageText);
                && (outcome == AlreadySeen <==> sig in old(processedSignatures))
                && (outcome == AlreadySeen ==> processedSignatures == old(processedSignatures))
                && (outcome != AlreadySeen ==>
                      && processedSignatures <= old(processedSignatures) + {sig}
                      && |processedSignatures| >= |old(processedSignatures)|
                      && (|old(processedSignatures)| < SignatureCacheLimit ==>
                            processedSignatures == old(processedSignatures) + {sig})
                      && (outcome == NotMentioned <==>
                            isGroup && groupMentionRequired
                            && !IsBotMentionedInText(lastMessageText, botGroupNickname))
                      && (outcome == Replied <==>
                            outcome != NotMentioned
                            && (triggerKeywords == [] || AnyKeywordIn(triggerKeywords, lastMessageText))))
    {
      if pauseEvent {
        return Paused;
      }
      var contact := Strip(nameText);
      if contactListMode == "whitelist" {
        if contact !in contactWhitelist {
          return Filtered;
        }
      } else if contactListMode == "blacklist" {
        if contact in contactBlacklist {
          return Filtered;
        }
      }
      if !checkOnlyNew && !chatOpened {
        return OpenFailed;
      }
      if lastMessageText == "" {
        return NoMessage;
      }
      var sig := MessageSignature(contact, lastMessageText);
      if sig in processedSignatures {
        return AlreadySeen;
      }
      processedSignatures := processedSignatures + {sig};
      if |processedSignatures| > SignatureCacheLimit {
        // `set.pop()` removes an arbitrary element
        var evicted :| evicted in processedSignatures;
        processedSignatures := processedSignatures - {evicted};
      }
      if isGroup && groupMentionRequired {
        if !IsBotMentionedInText(lastMessageText, botGroupNickname) {
          return NotMentioned;
        }
      }
      var triggered := KeywordTriggered(triggerKeywords, lastMessageText);
      if triggered {
        return Replied;
      }
      return NotTriggered;
    }
  }
}
