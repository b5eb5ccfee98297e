/** Finding the text of a message in its tree of MIME parts. */
module MimeTree {
  import opened Errors
  import opened Base64
  import Seqs
  import CleanText

  /** A part may be missing, and so may its body. */
  datatype Part = Missing | Part(mimeType: string, body: Option<string>, parts: seq<Part>)

  datatype Message = Message(payload: Part, snippet: string)

  /** The bytes as characters, one for each. */
  function FromBytes(data: seq<Byte>): (text: string)
    ensures |text| == |data| && forall i | 0 <= i < |data| :: text[i] as int == data[i]
  {
    seq(|data|, i requires 0 <= i < |data| => data[i] as char)
  }

  /** What a body of the wanted type decodes to; none if there is nothing to decode or it does not decode. */
  function Decoded(mimeType: string, body: Option<string>, wanted: string): Option<string> {
    if mimeType == wanted && body.Some? && body.value != "" then
      match DecodeBody(body.value)
      case Some(data) => Some(FromBytes(data))
      case None => None
    else None
  }

  // ---------------------------------------------------------------- the search

  /** findPartByMimeType: once a body decodes it is the answer, the empty text included. */
  function FindPart(part: Part, wanted: string): string
    decreases part
  {
    if part.Missing? then ""
    else match Decoded(part.mimeType, part.body, wanted)
         case Some(text) => text
         case None => FindInParts(part.parts, wanted)
  }

  function FindInParts(parts: seq<Part>, wanted: string): string
    decreases parts
  {
    if parts == [] then ""
    else
      var result := FindPart(parts[0], wanted);
      if result != "" then result else FindInParts(parts[1..], wanted)
  }

  // ---------------------------------------------------------------- the flattening

  datatype Leaf = Leaf(mimeType: string, body: Option<string>)

  /** Every part before its children, the children in their order. */
  function Preorder(part: Part): seq<Leaf>
    decreases part
  {
    if part.Missing? then [] else [Leaf(part.mimeType, part.body)] + PreorderAll(part.parts)
  }

  function PreorderAll(parts: seq<Part>): seq<Leaf>
    decreases parts
  {
    if parts == [] then [] else Preorder(parts[0]) + PreorderAll(parts[1..])
  }

  /** A part of the wanted type that decodes to the empty text: its children are not searched. */
  predicate Blinds(part: Part, wanted: string) {
    part.Part? && Decoded(part.mimeType, part.body, wanted) == Some("")
  }

  /** The flattening without what lies below such parts. */
  function Visible(part: Part, wanted: string): seq<Leaf>
    decreases part
  {
    if part.Missing? then []
    else [Leaf(part.mimeType, part.body)] + if Blinds(part, wanted) then [] else VisibleAll(part.parts, wanted)
  }

  function VisibleAll(parts: seq<Part>, wanted: string): seq<Leaf>
    decreases parts
  {
    if parts == [] then [] else Visible(parts[0], wanted) + VisibleAll(parts[1..], wanted)
  }

  predicate HasText(leaf: Leaf, wanted: string) {
    var text := Decoded(leaf.mimeType, leaf.body, wanted);
    text.Some? && text.value != ""
  }

  /** The first non-empty body of the wanted type. */
  function FirstText(leaves: seq<Leaf>, wanted: string): (r: string)
    ensures r != "" <==> exists leaf | leaf in leaves :: HasText(leaf, wanted)
  {
    if leaves == [] then ""
    else if HasText(leaves[0], wanted) then Decoded(leaves[0].mimeType, leaves[0].body, wanted).value
    else FirstText(leaves[1..], wanted)
  }

  lemma {:induction false} FirstTextJoins(a: seq<Leaf>, b: seq<Leaf>, wanted: string)
    ensures FirstText(a + b, wanted) == if FirstText(a, wanted) != "" then FirstText(a, wanted) else FirstText(b, wanted)
  {
    if a == [] {
      assert a + b == b;
    } else {
      assert (a + b)[1..] == a[1..] + b;
      FirstTextJoins(a[1..], b, wanted);
    }
  }

  /** For every tree: the search finds the first non-empty body among the visible parts. */
  lemma {:induction false} FindsFirstVisible(part: Part, wanted: string)
    ensures FindPart(part, wanted) == FirstText(Visible(part, wanted), wanted)
    decreases part
  {
    hide Decoded;
    if part.Part? {
      var leaf := Leaf(part.mimeType, part.body);
      FirstTextJoins([leaf], if Blinds(part, wanted) then [] else VisibleAll(part.parts, wanted), wanted);
      FirstTextOfOne(leaf, wanted);
      FindsFirstVisibleIn(part.parts, wanted);
    }
  }

  lemma {:induction false} FindsFirstVisibleIn(parts: seq<Part>, wanted: string)
    ensures FindInParts(parts, wanted) == FirstText(VisibleAll(parts, wanted), wanted)
    decreases parts
  {
    if parts != [] {
      FindsFirstVisible(parts[0], wanted);
      FindsFirstVisibleIn(parts[1..], wanted);
      FirstTextJoins(Visible(parts[0], wanted), VisibleAll(parts[1..], wanted), wanted);
    }
  }

  lemma FirstTextOfOne(leaf: Leaf, wanted: string)
    ensures FirstText([leaf], wanted) == if HasText(leaf, wanted) then Decoded(leaf.mimeType, leaf.body, wanted).value else ""
  {
    assert [leaf][1..] == [];
    assert FirstText([], wanted) == "";
  }

  /** No part of the wanted type that has parts below it decodes to the empty text. */
  predicate NothingHidden(part: Part, wanted: string)
    decreases part
  {
    part.Missing? || ((Blinds(part, wanted) ==> PreorderAll(part.parts) == []) && NothingHiddenIn(part.parts, wanted))
  }

  predicate NothingHiddenIn(parts: seq<Part>, wanted: string)
    decreases parts
  {
    parts == [] || (NothingHidden(parts[0], wanted) && NothingHiddenIn(parts[1..], wanted))
  }

  /** Exactly then the whole flattening is visible. */
  lemma {:induction false} AllVisibleExactly(part: Part, wanted: string)
    ensures |Visible(part, wanted)| <= |Preorder(part)|
    ensures Visible(part, wanted) == Preorder(part) <==> NothingHidden(part, wanted)
    decreases part
  {
    hide Decoded;
    if part.Part? {
      AllVisibleInExactly(part.parts, wanted);
      var leaf := [Leaf(part.mimeType, part.body)];
      assert Preorder(part)[1..] == PreorderAll(part.parts);
      assert Visible(part, wanted)[1..] == if Blinds(part, wanted) then [] else VisibleAll(part.parts, wanted);
      if Blinds(part, wanted) && PreorderAll(part.parts) == [] {
        NothingToHide(part.parts, wanted);
      }
    }
  }

  lemma {:induction false} AllVisibleInExactly(parts: seq<Part>, wanted: string)
    ensures |VisibleAll(parts, wanted)| <= |PreorderAll(parts)|
    ensures VisibleAll(parts, wanted) == PreorderAll(parts) <==> NothingHiddenIn(parts, wanted)
    decreases parts
  {
    if parts != [] {
      AllVisibleExactly(parts[0], wanted);
      AllVisibleInExactly(parts[1..], wanted);
      var v, p := Visible(parts[0], wanted), Preorder(parts[0]);
      if VisibleAll(parts, wanted) == PreorderAll(parts) {
        assert v == VisibleAll(parts, wanted)[..|v|] && p == PreorderAll(parts)[..|p|];
        assert VisibleAll(parts[1..], wanted) == VisibleAll(parts, wanted)[|v|..];
        assert PreorderAll(parts[1..]) == PreorderAll(parts)[|p|..];
      }
    }
  }

  lemma {:induction false} NothingToHide(parts: seq<Part>, wanted: string)
    requires PreorderAll(parts) == []
    ensures NothingHiddenIn(parts, wanted)
    decreases parts
  {
    if parts != [] {
      assert parts[0].Missing?;
      NothingToHide(parts[1..], wanted);
    }
  }

  /** Then the search finds the first non-empty body of the whole tree. */
  lemma FindsFirst(part: Part, wanted: string)
    requires NothingHidden(part, wanted)
    ensures FindPart(part, wanted) == FirstText(Preorder(part), wanted)
  {
    FindsFirstVisible(part, wanted);
    AllVisibleExactly(part, wanted);
  }

  // ---------------------------------------------------------------- when the whole tree is searched

  /** A part of the flattening, and whether it is visible. */
  datatype Seen = Seen(leaf: Leaf, visible: bool)

  /** The whole flattening, in which what lies below a part that decodes to the empty text is not visible. */
  function Sight(part: Part, wanted: string, visible: bool): seq<Seen>
    decreases part
  {
    if part.Missing? then []
    else [Seen(Leaf(part.mimeType, part.body), visible)] + SightAll(part.parts, wanted, visible && !Blinds(part, wanted))
  }

  function SightAll(parts: seq<Part>, wanted: string, visible: bool): seq<Seen>
    decreases parts
  {
    if parts == [] then [] else Sight(parts[0], wanted, visible) + SightAll(parts[1..], wanted, visible)
  }

  function Leaves(sight: seq<Seen>): seq<Leaf> {
    if sight == [] then [] else [sight[0].leaf] + Leaves(sight[1..])
  }

  function VisibleLeaves(sight: seq<Seen>): seq<Leaf> {
    if sight == [] then [] else (if sight[0].visible then [sight[0].leaf] else []) + VisibleLeaves(sight[1..])
  }

  lemma {:induction false} LeavesJoin(a: seq<Seen>, b: seq<Seen>)
    ensures Leaves(a + b) == Leaves(a) + Leaves(b)
    ensures VisibleLeaves(a + b) == VisibleLeaves(a) + VisibleLeaves(b)
  {
    if a == [] {
      Seqs.JoinNothing(b);
    } else {
      var rest := a[1..];
      Seqs.FirstOfJoin(a, b);
      LeavesJoin(rest, b);
      Seqs.JoinThree([a[0].leaf], Leaves(rest), Leaves(b));
      Seqs.JoinThree(if a[0].visible then [a[0].leaf] else [], VisibleLeaves(rest), VisibleLeaves(b));
    }
  }

  lemma {:induction false} SightIsWhole(part: Part, wanted: string, visible: bool)
    ensures Leaves(Sight(part, wanted, visible)) == Preorder(part)
    ensures VisibleLeaves(Sight(part, wanted, visible)) == if visible then Visible(part, wanted) else []
    decreases part
  {
    hide Decoded;
    if part.Part? {
      SightIsWholeIn(part.parts, wanted, visible && !Blinds(part, wanted));
      var first := Seen(Leaf(part.mimeType, part.body), visible);
      LeavesJoin([first], SightAll(part.parts, wanted, visible && !Blinds(part, wanted)));
      assert [first][1..] == [];
      assert Leaves([first]) == [first.leaf] && VisibleLeaves([first]) == if visible then [first.leaf] else [];
    }
  }

  lemma {:induction false} SightIsWholeIn(parts: seq<Part>, wanted: string, visible: bool)
    ensures Leaves(SightAll(parts, wanted, visible)) == PreorderAll(parts)
    ensures VisibleLeaves(SightAll(parts, wanted, visible)) == if visible then VisibleAll(parts, wanted) else []
    decreases parts
  {
    if parts != [] {
      SightIsWhole(parts[0], wanted, visible);
      SightIsWholeIn(parts[1..], wanted, visible);
      LeavesJoin(Sight(parts[0], wanted, visible), SightAll(parts[1..], wanted, visible));
    }
  }

  /**
   * Nothing hidden comes first: the first part with a text of the wanted type, if there is one, is visible,
   * or a visible one after it has the same text and none before that has another.
   */
  predicate FirstIsSeen(sight: seq<Seen>, wanted: string) {
    sight == [] ||
    var leaf := sight[0].leaf;
    if !HasText(leaf, wanted) then FirstIsSeen(sight[1..], wanted)
    else sight[0].visible || SameTextSeen(sight[1..], wanted, Decoded(leaf.mimeType, leaf.body, wanted))
  }

  predicate SameTextSeen(sight: seq<Seen>, wanted: string, text: Option<string>) {
    sight != [] &&
    var leaf := sight[0].leaf;
    if sight[0].visible && HasText(leaf, wanted) then Decoded(leaf.mimeType, leaf.body, wanted) == text
    else SameTextSeen(sight[1..], wanted, text)
  }

  lemma {:induction false} SameTextExactly(sight: seq<Seen>, wanted: string, text: string)
    requires text != ""
    ensures SameTextSeen(sight, wanted, Some(text)) <==> FirstText(VisibleLeaves(sight), wanted) == text
  {
    hide Decoded;
    if sight != [] {
      SameTextExactly(sight[1..], wanted, text);
      var head := if sight[0].visible then [sight[0].leaf] else [];
      FirstTextJoins(head, VisibleLeaves(sight[1..]), wanted);
      FirstTextOfOne(sight[0].leaf, wanted);
    }
  }

  lemma {:induction false} FirstIsSeenExactly(sight: seq<Seen>, wanted: string)
    ensures FirstIsSeen(sight, wanted) <==> FirstText(VisibleLeaves(sight), wanted) == FirstText(Leaves(sight), wanted)
  {
    hide Decoded;
    if sight != [] {
      var leaf := sight[0].leaf;
      FirstIsSeenExactly(sight[1..], wanted);
      FirstTextJoins([leaf], Leaves(sight[1..]), wanted);
      FirstTextJoins(if sight[0].visible then [leaf] else [], VisibleLeaves(sight[1..]), wanted);
      FirstTextOfOne(leaf, wanted);
      if HasText(leaf, wanted) {
        SameTextExactly(sight[1..], wanted, Decoded(leaf.mimeType, leaf.body, wanted).value);
      }
    }
  }

  /** The search finds the first non-empty body of the whole tree exactly if nothing hidden comes first. */
  lemma FindsFirstExactly(part: Part, wanted: string)
    ensures FindPart(part, wanted) == FirstText(Preorder(part), wanted) <==> FirstIsSeen(Sight(part, wanted, true), wanted)
  {
    FindsFirstVisible(part, wanted);
    SightIsWhole(part, wanted, true);
    FirstIsSeenExactly(Sight(part, wanted, true), wanted);
  }

  // ---------------------------------------------------------------- what lies hidden

  const LINE_BREAK: Option<string> := Some("\n")
  const LETTER: Option<string> := Some("QQ")

  lemma LetterDecodes()
    ensures WithoutBreaks("QQ") == "QQ" && DecodeRaw(UrlSafe, "QQ") == Some([65])
  {
    NoBreaksToSkip("QQ");
    assert ValueOf(UrlSafe, 'Q') == Some(16);
    hide WithoutBreaks, ValueOf;
  }

  lemma LineBreakDecodes()
    ensures WithoutBreaks("\n") == "" && DecodeRaw(UrlSafe, "") == Some([])
  {
    assert "\n"[1..] == "" && WithoutBreaks("") == "";
  }

  lemma Letter()
    ensures Decoded("text/plain", LETTER, "text/plain") == Some("A")
    ensures Decoded("text/plain", LINE_BREAK, "text/plain") == Some("")
  {
    hide WithoutBreaks, DecodeRaw, DecodePadded;
    LetterDecodes();
    LineBreakDecodes();
    assert FromBytes([65]) == ['A'];
    assert FromBytes([]) == "";
  }

  /** A body that is one line break decodes to nothing, and hides the text below it. */
  lemma TextCanHide()
    ensures
      var inner := Part("text/plain", LETTER, []);
      var outer := Part("text/plain", LINE_BREAK, [inner]);
      FindPart(outer, "text/plain") == "" && FirstText(Preorder(outer), "text/plain") == "A"
  {
    hide Decoded;
    Letter();
    var inner := Part("text/plain", LETTER, []);
    var outer := Part("text/plain", LINE_BREAK, [inner]);
    var leaf := Leaf("text/plain", LETTER);
    assert PreorderAll([]) == [] && Preorder(inner) == [leaf];
    assert PreorderAll([inner]) == [leaf] by { assert [inner][1..] == []; }
    FirstTextJoins([Leaf("text/plain", LINE_BREAK)], [leaf], "text/plain");
    FirstTextOfOne(leaf, "text/plain");
    FirstTextOfOne(Leaf("text/plain", LINE_BREAK), "text/plain");
  }

  // ---------------------------------------------------------------- the body of a message

  /** Converting HTML to text is given. */
  function ExtractBody(msg: Option<Message>, toText: string -> Result<string>): Result<string> {
    if msg.None? || msg.value.payload.Missing? then Fail(Plain("message or payload is nil"))
    else
      var plain := FindPart(msg.value.payload, "text/plain");
      if plain != "" then Ok(plain)
      else
        var html := FindPart(msg.value.payload, "text/html");
        if html == "" then Ok(msg.value.snippet)
        else match toText(html)
             case Fail(e) => Fail(Wrapped("failed to convert HTML to text", e))
             case Ok(text) => Ok(text)
  }

  /** Plain text that is visible anywhere in the tree comes before all HTML, wherever that stands. */
  lemma PlainComesFirst(msg: Message, toText: string -> Result<string>, leaf: Leaf)
    requires leaf in Visible(msg.payload, "text/plain") && HasText(leaf, "text/plain")
    ensures ExtractBody(Some(msg), toText) == Ok(FirstText(Visible(msg.payload, "text/plain"), "text/plain"))
    ensures forall other :: ExtractBody(Some(msg), other) == ExtractBody(Some(msg), toText)
  {
    hide Decoded;
    FindsFirstVisible(msg.payload, "text/plain");
  }

  /** The snippet stands in exactly when neither kind of text is visible; HTML speaks only without plain text. */
  lemma FallsBackExactly(msg: Message, toText: string -> Result<string>)
    requires msg.payload.Part?
    ensures
      var plain := exists leaf | leaf in Visible(msg.payload, "text/plain") :: HasText(leaf, "text/plain");
      var html := exists leaf | leaf in Visible(msg.payload, "text/html") :: HasText(leaf, "text/html");
      var first := FirstText(Visible(msg.payload, "text/html"), "text/html");
      && (!plain && !html ==> ExtractBody(Some(msg), toText) == Ok(msg.snippet))
      && (ExtractBody(Some(msg), toText).Fail? <==> !plain && html && toText(first).Fail?)
      && (!plain && html && toText(first).Ok? ==> ExtractBody(Some(msg), toText) == toText(first))
  {
    hide Decoded;
    FindsFirstVisible(msg.payload, "text/plain");
    FindsFirstVisible(msg.payload, "text/html");
  }

  /** A body that encodes some bytes, in any of the three forms that are tried, decodes to them for its own type only. */
  lemma EncodedBodyIsDecoded(mimeType: string, wanted: string, data: seq<Byte>)
    requires data != []
    ensures Decoded(mimeType, Some(EncodeRaw(UrlSafe, data)), wanted) == if mimeType == wanted then Some(FromBytes(data)) else None
    ensures Decoded(mimeType, Some(EncodePadded(UrlSafe, data)), wanted) == if mimeType == wanted then Some(FromBytes(data)) else None
    ensures Decoded(mimeType, Some(EncodeRaw(Standard, data)), wanted) == if mimeType == wanted then Some(FromBytes(data)) else None
  {
    DecodeBodyRoundTrip(data);
    EncodedIsNotEmpty(UrlSafe, data);
    EncodedIsNotEmpty(Standard, data);
    hide EncodeRaw, EncodePadded, DecodeBody;
  }

  lemma EncodedIsNotEmpty(a: Alphabet, data: seq<Byte>)
    requires data != []
    ensures EncodeRaw(a, data) != "" && EncodePadded(a, data) != ""
  {
  }

  /** A message of one part: its text if that is plain, its converted text if it is HTML. */
  lemma SinglePartIsExtracted(data: seq<Byte>, snippet: string, toText: string -> Result<string>)
    requires data != []
    ensures ExtractBody(Some(Message(Part("text/plain", Some(EncodeRaw(UrlSafe, data)), []), snippet)), toText) == Ok(FromBytes(data))
    ensures
      var r := ExtractBody(Some(Message(Part("text/html", Some(EncodeRaw(UrlSafe, data)), []), snippet)), toText);
      match toText(FromBytes(data))
      case Ok(text) => r == Ok(text)
      case Fail(e) => r == Fail(Wrapped("failed to convert HTML to text", e))
  {
    hide Decoded;
    EncodedBodyIsDecoded("text/plain", "text/plain", data);
    EncodedBodyIsDecoded("text/html", "text/plain", data);
    EncodedBodyIsDecoded("text/html", "text/html", data);
    assert FindInParts([], "text/plain") == "";
  }

  // ---------------------------------------------------------------- with options

  datatype Options = Options(preferPlainText: bool, convertHtml: bool, maxLength: int)

  /** A Go slice expression out of range does not return. */
  datatype Answer = Returned(result: Result<string>) | Panicked

  function CutToMax(body: string, maxLength: int): Answer {
    if maxLength > 0 && |body| > maxLength then
      var idx := CleanText.LastSpace(body[..maxLength]);
      if idx > maxLength - 100 then
        if idx < 0 then Panicked else Returned(Ok(body[..idx] + "..."))
      else Returned(Ok(body[..maxLength] + "..."))
    else Returned(Ok(body))
  }

  method ExtractBodyWithOptions(msg: Option<Message>, opts: Options, toText: string -> Result<string>) returns (r: Answer)
    ensures r == WithOptions(msg, opts, toText)
  {
    if msg.None? || msg.value.payload.Missing? {
      return Returned(Fail(Plain("message or payload is nil")));
    }
    var payload := msg.value.payload;
    var body := "";
    if opts.preferPlainText {
      body := FindPart(payload, "text/plain");
      if body == "" && opts.convertHtml {
        var htmlText := FindPart(payload, "text/html");
        if htmlText != "" {
          var text := toText(htmlText);
          if text.Fail? {
            return Returned(Fail(Wrapped("failed to convert HTML to text", text.err)));
          }
          body := text.value;
        }
      }
    } else {
      var htmlText := FindPart(payload, "text/html");
      if htmlText != "" && opts.convertHtml {
        var text := toText(htmlText);
        if text.Fail? {
          return Returned(Fail(Wrapped("failed to convert HTML to text", text.err)));
        }
        body := text.value;
      } else if htmlText != "" {
        body := htmlText;
      } else {
        body := FindPart(payload, "text/plain");
      }
    }
    if body == "" {
      body := msg.value.snippet;
    }
    return CutToMax(body, opts.maxLength);
  }

  /** The text before it is cut: the preferred kind, converted if asked for, and the snippet for an empty text. */
  function Chosen(msg: Message, opts: Options, toText: string -> Result<string>): Result<string> {
    var plain, html := FindPart(msg.payload, "text/plain"), FindPart(msg.payload, "text/html");
    var converts := html != "" && opts.convertHtml && (opts.preferPlainText ==> plain == "");
    if converts && toText(html).Fail? then Fail(Wrapped("failed to convert HTML to text", toText(html).err))
    else
      var text :=
        if converts then toText(html).value
        else if html != "" && !opts.preferPlainText then html
        else plain;
      Ok(if text == "" then msg.snippet else text)
  }

  function WithOptions(msg: Option<Message>, opts: Options, toText: string -> Result<string>): Answer {
    if msg.None? || msg.value.payload.Missing? then Returned(Fail(Plain("message or payload is nil")))
    else match Chosen(msg.value, opts, toText)
         case Fail(e) => Returned(Fail(e))
         case Ok(body) => CutToMax(body, opts.maxLength)
  }

  /** What the options choose, in terms of the first visible text of either kind. */
  lemma ChosenExactly(msg: Message, opts: Options, toText: string -> Result<string>)
    ensures
      var plain := FirstText(Visible(msg.payload, "text/plain"), "text/plain");
      var html := FirstText(Visible(msg.payload, "text/html"), "text/html");
      var r := Chosen(msg, opts, toText);
      && (opts.preferPlainText && plain != "" ==> r == Ok(plain))
      && (opts.preferPlainText && plain == "" && (html == "" || !opts.convertHtml) ==> r == Ok(msg.snippet))
      && (html != "" && opts.convertHtml && (opts.preferPlainText ==> plain == "") ==>
            match toText(html)
            case Fail(e) => r == Fail(Wrapped("failed to convert HTML to text", e))
            case Ok(text) => r == Ok(if text == "" then msg.snippet else text))
      && (!opts.preferPlainText && html != "" && !opts.convertHtml ==> r == Ok(html))
      && (!opts.preferPlainText && html == "" ==> r == Ok(if plain == "" then msg.snippet else plain))
  {
    hide FindPart, Visible;
    FindsFirstVisible(msg.payload, "text/plain");
    FindsFirstVisible(msg.payload, "text/html");
  }

  /** The cut is at the last space if that is among the last hundred characters before the limit, else at the limit. */
  predicate CutsAt(body: string, maxLength: int, cut: nat) {
    && 0 < maxLength < |body| && cut <= maxLength
    && (cut < maxLength ==> body[cut] == ' ' && cut > maxLength - 100)
    && NoSpaceFrom(body, if cut < maxLength then cut + 1 else if maxLength >= 100 then maxLength - 99 else 0, maxLength)
  }

  /** A text that fits comes back as it is, and any other, unless its cut panics, up to the cut and with dots. */
  lemma CutToMaxExactly(body: string, maxLength: int)
    ensures maxLength <= 0 || |body| <= maxLength ==> CutToMax(body, maxLength) == Returned(Ok(body))
    ensures 0 < maxLength < |body| && CutToMax(body, maxLength).Returned? ==>
              exists cut: nat :: CutsAt(body, maxLength, cut) && CutToMax(body, maxLength) == Returned(Ok(body[..cut] + "..."))
  {
    if 0 < maxLength < |body| && CutToMax(body, maxLength).Returned? {
      var short := body[..maxLength];
      var idx := CleanText.LastSpace(short);
      assert forall k | 0 <= k < maxLength :: short[k] == body[k];
      var cut: nat := if idx > maxLength - 100 then idx else maxLength;
      assert CutsAt(body, maxLength, cut);
      assert short[..cut] == body[..cut];
    }
  }

  lemma CutPanicsExactly(body: string, maxLength: int)
    ensures CutToMax(body, maxLength).Panicked?
       <==> 0 < maxLength < 99 && |body| > maxLength && ' ' !in body[..maxLength]
    ensures CutToMax(body, maxLength).Returned? ==> CutToMax(body, maxLength).result.Ok?
    ensures CutToMax(body, maxLength).Returned? && maxLength > 0 ==> |CutToMax(body, maxLength).result.value| <= maxLength + 3
  {
  }

  /**
   * The call on a message panics, with a slice that ends at -1, exactly when the limit is from 1 to 98 and
   * the chosen text is longer and has no space before the limit. TruncateBody guards against this.
   * Otherwise a text that is returned under a limit is at most three characters longer.
   */
  lemma PanicsExactly(msg: Message, opts: Options, toText: string -> Result<string>)
    requires msg.payload.Part?
    ensures
      var r, chosen := WithOptions(Some(msg), opts, toText), Chosen(msg, opts, toText);
      && (r.Panicked? <==>
            && 0 < opts.maxLength < 99 && chosen.Ok?
            && |chosen.value| > opts.maxLength && ' ' !in chosen.value[..opts.maxLength])
      && (r.Returned? ==> (r.result.Fail? <==> chosen.Fail?))
      && (r.Returned? && r.result.Ok? && opts.maxLength > 0 ==> |r.result.value| <= opts.maxLength + 3)
  {
    hide Chosen, CutToMax;
    var chosen := Chosen(msg, opts, toText);
    if chosen.Ok? {
      CutPanicsExactly(chosen.value, opts.maxLength);
    }
  }

  /**
   * A call that returns a text under a limit keeps to it exactly if the chosen text fits, or is cut at a
   * space that leaves room for the dots: the last one before the limit, among the last hundred characters
   * but not the last two.
   */
  lemma KeepsLimitExactly(msg: Message, opts: Options, toText: string -> Result<string>)
    requires msg.payload.Part? && Chosen(msg, opts, toText).Ok? && opts.maxLength > 0
    requires WithOptions(Some(msg), opts, toText).Returned?
    ensures
      var text, most := Chosen(msg, opts, toText).value, opts.maxLength;
      var r := WithOptions(Some(msg), opts, toText).result;
      && r.Ok?
      && (|r.value| <= most
          <==> || |text| <= most
               || exists k | 0 <= k < |text| :: text[k] == ' ' && most - 100 < k <= most - 3 && NoSpaceFrom(text, k + 1, most))
  {
    hide Chosen;
    var text, most := Chosen(msg, opts, toText).value, opts.maxLength;
    if |text| > most {
      var short := text[..most];
      var idx := CleanText.LastSpace(short);
      assert forall k | 0 <= k < most :: short[k] == text[k];
      if most - 100 < idx <= most - 3 && idx >= 0 {
        assert text[idx] == ' ' && NoSpaceFrom(text, idx + 1, most);
      }
    }
  }

  predicate NoSpaceFrom(text: string, from: int, to: int) {
    forall i | 0 <= i < |text| && from <= i < to :: text[i] != ' '
  }

  /** A message with nothing but a snippet of a hundred letters comes back with 102 under a limit of 99. */
  lemma LimitCanBeExceeded(snippet: string, toText: string -> Result<string>)
    requires |snippet| == 100 && forall i | 0 <= i < 100 :: snippet[i] != ' '
    ensures WithOptions(Some(Message(Part("text/plain", None, []), snippet)), Options(true, false, 99), toText)
         == Returned(Ok(snippet[..99] + "..."))
  {
    assert forall i | 0 <= i < 99 :: snippet[..99][i] == snippet[i];
    assert FindInParts([], "text/plain") == "";
  }

  /** Such a message: no text but a snippet of two letters, and a limit of one. */
  lemma SomeMessagePanics(toText: string -> Result<string>)
    ensures WithOptions(Some(Message(Part("text/plain", None, []), "aa")), Options(true, false, 1), toText).Panicked?
  {
    hide CutToMax;
    var msg, opts := Message(Part("text/plain", None, []), "aa"), Options(true, false, 1);
    assert FindInParts([], "text/plain") == "";
    assert Chosen(msg, opts, toText) == Ok("aa");
    PanicsExactly(msg, opts, toText);
  }

  /**
   * Asked for plain text first, conversion and no limit, this is ExtractBody, except that HTML
   * which converts to nothing gives way to the snippet.
   */
  lemma DefaultsAgreeExactly(msg: Message, toText: string -> Result<string>)
    requires msg.payload.Part?
    ensures WithOptions(Some(msg), Options(true, true, 0), toText) == Returned(ExtractBody(Some(msg), toText))
       <==> !(&& FindPart(msg.payload, "text/plain") == "" && FindPart(msg.payload, "text/html") != ""
              && toText(FindPart(msg.payload, "text/html")) == Ok("") && msg.snippet != "")
  {
    hide FindPart;
  }
}
