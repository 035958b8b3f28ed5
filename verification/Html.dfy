/** Reading HTML back: an independent checker for the renderer of gateway/shared/markdown.py, the
    escaping functions `_text` and `_attr`, and the link filter `_safe_href`. */
module Html {
  import opened Common

  // ---- a small HTML reader ----





  /** Every element the renderer may emit, and the attributes it may put on one. */
  const ELEMENTS: set<string> :=
    {"a", "blockquote", "code", "div", "em", "h1", "h2", "h3", "h4", "h5", "h6", "li", "ol", "p", "pre",
     "strong", "table", "tbody", "td", "th", "thead", "tr", "ul"}
  const VOID_ELEMENTS: set<string> := {"hr"}
  const ATTRIBUTES: set<string> := {"aria-label", "class", "href", "id", "style"}

  /** Position of the first `c`, or the length. */
  function Find(s: string, c: char): nat {
    if |s| == 0 || s[0] == c then 0 else 1 + Find(s[1..], c)
  }

  lemma {:induction false} FindFirst(a: string, c: char, rest: string)
    requires c !in a && |rest| > 0 && rest[0] == c
    ensures Find(a + rest, c) == |a|
  {
    if |a| == 0 {
      assert a + rest == rest;
    } else {
      assert (a + rest)[1..] == a[1..] + rest;
      FindFirst(a[1..], c, rest);
    }
  }

  lemma {:induction false} FindBound(s: string, c: char)
    ensures Find(s, c) <= |s|
  {
    if |s| > 0 {
      FindBound(s[1..], c);
    }
  }

  predicate HasPrefix(s: string, p: string) { |p| <= |s| && s[..|p|] == p }

  /** Targets a link may have: in the document, on the site, or http(s) and mail. */
  predicate SafeTarget(href: string) {
    HasPrefix(href, "#") || HasPrefix(href, "/") || HasPrefix(href, "http://") || HasPrefix(href, "https://")
    || HasPrefix(href, "mailto:")
  }

  /** The attribute part of a tag: any number of ` name="value"`, each name known, each href safe. */
  predicate AttributesOk(s: string)
    decreases |s|
  {
    if |s| == 0 then true
    else
      FindBound(s, '=');
      var eq := Find(s, '=');
      if s[0] != ' ' || eq == 0 || eq + 1 >= |s| || s[eq + 1] != '"' then false
      else
        var value := s[eq + 2..];
        FindBound(value, '"');
        var end := Find(value, '"');
        && end < |value|
        && s[1..eq] in ATTRIBUTES
        && (s[1..eq] == "href" ==> SafeTarget(value[..end]))
        && AttributesOk(value[end + 1..])
  }

  datatype Tag = Open(name: string) | Void | Close(name: string) | Malformed

  /** What stands between `<` and `>`. */
  function ReadTag(tag: string): Tag {
    FindBound(tag, ' ');
    if '<' in tag then Malformed
    else if HasPrefix(tag, "/") then (if tag[1..] in ELEMENTS then Close(tag[1..]) else Malformed)
    else
      var name := tag[..Find(tag, ' ')];
      if !AttributesOk(tag[Find(tag, ' ')..]) then Malformed
      else if name in ELEMENTS then Open(name)
      else if name in VOID_ELEMENTS then Void
      else Malformed
  }

  /** Reads a document with the given elements open, innermost first. The result is what is open at
      the end; None for a stray `<` or `>`, an unknown or malformed tag, or an end tag that does not
      close the innermost element. */
  function Scan(html: string, stack: seq<string>): Option<seq<string>>
    decreases |html|
  {
    if |html| == 0 then Some(stack)
    else if html[0] == '>' then None
    else if html[0] != '<' then Scan(html[1..], stack)
    else
      FindBound(html, '>');
      var end := Find(html, '>');
      if end == |html| then None
      else
        match ReadTag(html[1..end])
        case Open(name) => Scan(html[end + 1..], [name] + stack)
        case Void => Scan(html[end + 1..], stack)
        case Close(name) =>
          if |stack| > 0 && stack[0] == name then Scan(html[end + 1..], stack[1..]) else None
        case Malformed => None
  }

  /** A well-formed document: every tag known, every element closed in its turn. */
  predicate WellFormed(html: string) { Scan(html, []) == Some([]) }

  // ---- fragments ----

  /** A fragment that reads as nothing wherever it stands. */
  ghost predicate Balanced(s: string) {
    forall rest, stack :: Scan(s + rest, stack) == Scan(rest, stack)
  }

  lemma BalancedIsWellFormed(s: string)
    requires Balanced(s)
    ensures WellFormed(s)
  {
    assert s + [] == s;
    assert Scan(s + [], []) == Scan([], []);
  }

  lemma BalancedEmpty()
    ensures Balanced("")
  {
    forall rest: string, stack: seq<string> ensures Scan("" + rest, stack) == Scan(rest, stack) {
      assert "" + rest == rest;
    }
  }

  lemma BalancedConcat(a: string, b: string)
    requires Balanced(a) && Balanced(b)
    ensures Balanced(a + b)
  {
    forall rest: string, stack: seq<string> ensures Scan((a + b) + rest, stack) == Scan(rest, stack) {
      assert (a + b) + rest == a + (b + rest);
      assert Scan(a + (b + rest), stack) == Scan(b + rest, stack);
    }
  }

  predicate NoAngles(s: string) { '<' !in s && '>' !in s }

  lemma {:induction false} BalancedText(s: string)
    requires NoAngles(s)
    ensures Balanced(s)
  {
    if |s| == 0 {
      BalancedEmpty();
    } else {
      BalancedText(s[1..]);
      forall rest: string, stack: seq<string> ensures Scan(s + rest, stack) == Scan(rest, stack) {
        assert (s + rest)[1..] == s[1..] + rest;
      }
    }
  }

  // ---- tags as the renderer writes them ----

  function Attribute(name: string, value: string): string { " " + name + "=\"" + value + "\"" }

  function StartTag(name: string, attributes: string): string { "<" + name + attributes + ">" }

  function EndTag(name: string): string { "</" + name + ">" }

  function Element(name: string, attributes: string, body: string): string {
    StartTag(name, attributes) + body + EndTag(name)
  }

  /** Attribute text that reads well and cannot end its tag. */
  ghost predicate Attributes(s: string) {
    NoAngles(s) && AttributesOk(s) && (|s| > 0 ==> s[0] == ' ')
  }

  lemma AttributeParts(name: string, value: string, rest: string)
    requires '=' !in name
    ensures var s := Attribute(name, value) + rest;
            && Find(s, '=') == |name| + 1 && |s| > |name| + 2 && s[0] == ' ' && s[|name| + 2] == '"'
            && s[1..|name| + 1] == name && s[|name| + 3..] == value + ("\"" + rest)
  {
    var s, tail := Attribute(name, value) + rest, "=\"" + (value + ("\"" + rest));
    assert s == (" " + name) + tail;
    FindFirst(" " + name, '=', tail);
  }

  lemma ValueParts(value: string, rest: string)
    requires '"' !in value
    ensures var s := value + ("\"" + rest);
            Find(s, '"') == |value| && s[..|value|] == value && s[|value| + 1..] == rest
  {
    FindFirst(value, '"', "\"" + rest);
  }

  lemma AttributePlain(name: string, value: string, rest: string)
    requires NoAngles(name) && NoAngles(value) && NoAngles(rest)
    ensures NoAngles(Attribute(name, value) + rest)
  {
    assert NoAngles(" " + name);
    assert NoAngles("=\"" + value + "\"");
    assert Attribute(name, value) == (" " + name) + ("=\"" + value + "\"");
  }

  lemma AttributeReads(name: string, value: string, rest: string)
    requires |name| > 0 && name in ATTRIBUTES && '=' !in name && NoAngles(name)
    requires '"' !in value && NoAngles(value)
    requires name == "href" ==> SafeTarget(value)
    requires Attributes(rest)
    ensures Attributes(Attribute(name, value) + rest)
  {
    AttributePlain(name, value, rest);
    AttributeParts(name, value, rest);
    ValueParts(value, rest);
  }

  lemma TagParts(tag: string, rest: string)
    requires '>' !in tag
    ensures var s := "<" + tag + ">" + rest;
            && s[0] == '<' && Find(s, '>') == |tag| + 1 && |s| > |tag| + 1
            && s[1..|tag| + 1] == tag && s[|tag| + 2..] == rest
  {
    assert "<" + tag + ">" + rest == ("<" + tag) + (">" + rest);
    FindFirst("<" + tag, '>', ">" + rest);
  }

  lemma {:induction false} FindAbsent(s: string, c: char)
    requires c !in s
    ensures Find(s, c) == |s|
  {
    if |s| > 0 {
      FindAbsent(s[1..], c);
    }
  }

  lemma TagName(name: string, attributes: string)
    requires ' ' !in name && Attributes(attributes)
    ensures Find(name + attributes, ' ') == |name|
    ensures (name + attributes)[..|name|] == name && (name + attributes)[|name|..] == attributes
  {
    if |attributes| > 0 {
      FindFirst(name, ' ', attributes);
    } else {
      FindFirst(name, ' ', " ");
      FindAbsent(name, ' ');
      assert name + attributes == name;
    }
  }

  /** A name and its attributes read as a start tag of that name. */
  lemma TagReads(name: string, attributes: string)
    requires NoAngles(name) && ' ' !in name && !HasPrefix(name, "/") && |name| > 0 && Attributes(attributes)
    ensures '>' !in name + attributes
    ensures name in ELEMENTS ==> ReadTag(name + attributes) == Open(name)
    ensures name !in ELEMENTS && name in VOID_ELEMENTS ==> ReadTag(name + attributes) == Void
  {
    TagName(name, attributes);
    assert (name + attributes)[0] == name[0] && name[..1] == [name[0]];
  }

  lemma StartTagReads(name: string, attributes: string, rest: string, stack: seq<string>)
    requires NoAngles(name) && ' ' !in name && !HasPrefix(name, "/") && |name| > 0 && Attributes(attributes)
    ensures name in ELEMENTS ==>
              Scan(StartTag(name, attributes) + rest, stack) == Scan(rest, [name] + stack)
    ensures name !in ELEMENTS && name in VOID_ELEMENTS ==>
              Scan(StartTag(name, attributes) + rest, stack) == Scan(rest, stack)
  {
    TagReads(name, attributes);
    TagParts(name + attributes, rest);
    assert StartTag(name, attributes) + rest == "<" + (name + attributes) + ">" + rest;
  }

  lemma EndTagReads(name: string, rest: string, stack: seq<string>)
    requires name in ELEMENTS && NoAngles(name)
    ensures Scan(EndTag(name) + rest, [name] + stack) == Scan(rest, stack)
  {
    TagParts("/" + name, rest);
    assert EndTag(name) + rest == "<" + ("/" + name) + ">" + rest;
    assert ("/" + name)[..1] == "/" && ("/" + name)[1..] == name;
    assert ([name] + stack)[1..] == stack;
  }

  /** An end tag that does not close the innermost open element is refused, and so is one when none is open. */
  lemma WrongEndTag(name: string, rest: string, stack: seq<string>)
    requires NoAngles(name) && (stack == [] || stack[0] != name)
    ensures Scan(EndTag(name) + rest, stack) == None
  {
    TagParts("/" + name, rest);
    assert EndTag(name) + rest == "<" + ("/" + name) + ">" + rest;
    assert ("/" + name)[..1] == "/" && ("/" + name)[1..] == name;
  }

  /** A name the reader knows, spelled so that it reads as itself. */
  predicate ElementName(name: string) {
    name in ELEMENTS && NoAngles(name) && ' ' !in name && |name| > 0 && name[0] != '/'
  }

  /** Elements that cross each other are refused, wherever they stand. */
  lemma CrossingIsRefused(outer: string, inner: string, rest: string, stack: seq<string>)
    requires ElementName(outer) && ElementName(inner) && outer != inner
    ensures Scan(StartTag(outer, "") + (StartTag(inner, "") + (EndTag(outer) + rest)), stack) == None
  {
    StartTagReads(outer, "", StartTag(inner, "") + (EndTag(outer) + rest), stack);
    StartTagReads(inner, "", EndTag(outer) + rest, [outer] + stack);
    WrongEndTag(outer, rest, [inner] + ([outer] + stack));
  }

  /** A stray angle bracket is refused, and so is an element left open at the end. */
  lemma StrayIsRefused(rest: string, stack: seq<string>, name: string)
    requires ElementName(name)
    ensures Scan(">" + rest, stack) == None && !WellFormed(StartTag(name, ""))
  {
    StartTagReads(name, "", "", []);
    assert StartTag(name, "") + "" == StartTag(name, "");
    assert [name] + [] == [name];
  }

  lemma OneAttribute(s: string, eq: nat, v: string, end: nat)
    requires |s| > 0 && s[0] == ' ' && 0 < eq == Find(s, '=') && eq + 1 < |s| && s[eq + 1] == '"'
    requires v == s[eq + 2..] && end == Find(v, '"') && end < |v|
    ensures AttributesOk(s)
            <==> s[1..eq] in ATTRIBUTES && (s[1..eq] == "href" ==> SafeTarget(v[..end])) && AttributesOk(v[end + 1..])
  {
    hide Find, SafeTarget, ATTRIBUTES;
  }

  /** An attribute is read exactly when it is a known one whose value, if it is a link, is safe; what follows it must
      read too. */
  lemma AttributeReadsIff(name: string, value: string, rest: string)
    requires |name| > 0 && '=' !in name && '"' !in value
    ensures AttributesOk(Attribute(name, value) + rest)
            <==> name in {"aria-label", "class", "href", "id", "style"} && AttributesOk(rest)
                 && (name == "href" ==>
                       "#" <= value || "/" <= value || "http://" <= value || "https://" <= value || "mailto:" <= value)
  {
    hide AttributesOk, Attribute, Find;
    AttributeParts(name, value, rest);
    ValueParts(value, rest);
    var s := Attribute(name, value) + rest;
    OneAttribute(s, |name| + 1, s[|name| + 3..], |value|);
  }

  /** An element around a balanced body is balanced. */
  lemma BalancedElement(name: string, attributes: string, body: string)
    requires ElementName(name) && Attributes(attributes) && Balanced(body)
    ensures Balanced(Element(name, attributes, body))
  {
    forall rest: string, stack: seq<string>
      ensures Scan(Element(name, attributes, body) + rest, stack) == Scan(rest, stack)
    {
      Associate4(StartTag(name, attributes), body, EndTag(name), rest);
      StartTagReads(name, attributes, body + (EndTag(name) + rest), stack);
      assert Scan(body + (EndTag(name) + rest), [name] + stack) == Scan(EndTag(name) + rest, [name] + stack);
      EndTagReads(name, rest, stack);
    }
  }

  lemma BalancedVoid(name: string)
    requires name in VOID_ELEMENTS && name !in ELEMENTS
    requires NoAngles(name) && ' ' !in name && !HasPrefix(name, "/") && |name| > 0
    ensures Balanced(StartTag(name, ""))
  {
    forall rest: string, stack: seq<string> ensures Scan(StartTag(name, "") + rest, stack) == Scan(rest, stack) {
      StartTagReads(name, "", rest, stack);
    }
  }

  // ---- escaping ----

  function EscapeChar(c: char, quote: bool): string {
    if c == '&' then "&amp;"
    else if c == '<' then "&lt;"
    else if c == '>' then "&gt;"
    else if quote && c == '"' then "&quot;"
    else if quote && c == '\'' then "&#x27;"
    else [c]
  }

  /** html.escape(value, quote) */
  function Escape(s: string, quote: bool): string {
    if |s| == 0 then "" else EscapeChar(s[0], quote) + Escape(s[1..], quote)
  }

  lemma {:induction false} EscapeIsSafe(s: string, quote: bool)
    ensures NoAngles(Escape(s, quote))
    ensures quote ==> '"' !in Escape(s, quote)
  {
    if |s| > 0 {
      EscapeIsSafe(s[1..], quote);
    }
  }

  /** Reads one character reference or plain character; how many characters it took. */
  function ReadChar(s: string): (char, nat)
    requires |s| > 0
  {
    if HasPrefix(s, "&amp;") then ('&', 5)
    else if HasPrefix(s, "&lt;") then ('<', 4)
    else if HasPrefix(s, "&gt;") then ('>', 4)
    else if HasPrefix(s, "&quot;") then ('"', 6)
    else if HasPrefix(s, "&#x27;") then ('\'', 6)
    else (s[0], 1)
  }

  function Unescape(s: string): string
    decreases |s|
  {
    if |s| == 0 then "" else
      var (c, n) := ReadChar(s);
      [c] + Unescape(s[n..])
  }

  lemma ReadCharInverts(c: char, quote: bool, tail: string)
    ensures ReadChar(EscapeChar(c, quote) + tail) == (c, |EscapeChar(c, quote)|)
  {
    var s := EscapeChar(c, quote) + tail;
    assert s[..|EscapeChar(c, quote)|] == EscapeChar(c, quote);
    if c == '<' {
      assert s[1] == 'l';
    } else if c == '>' {
      assert s[1] == 'g';
    } else if c == '"' && quote {
      assert s[1] == 'q';
    } else if c == '\'' && quote {
      assert s[1] == '#';
    } else if c != '&' {
      assert s[0] == c;
    }
  }

  /** Escaping loses nothing: a reader gets the text back. */
  lemma {:induction false} EscapeRoundTrip(s: string, quote: bool)
    ensures Unescape(Escape(s, quote)) == s
  {
    if |s| > 0 {
      var head, tail := EscapeChar(s[0], quote), Escape(s[1..], quote);
      EscapeRoundTrip(s[1..], quote);
      ReadCharInverts(s[0], quote, tail);
      assert (head + tail)[|head|..] == tail;
    }
  }

  // ---- links ----

  /** `_safe_href` */
  function SafeHref(href: string): string { if SafeTarget(href) then href else "#" }

  /** A target is kept exactly when it stays in the document, on the site, or has one of three schemes. */
  lemma SafeHrefIs(href: string)
    ensures SafeHref(href)
            == if "#" <= href || "/" <= href || "http://" <= href || "https://" <= href || "mailto:" <= href then href
               else "#"
  {
  }

  predicate PlainChar(c: char) { c !in {'&', '<', '>', '"', '\''} }

  predicate PlainChars(p: string) { forall i | 0 <= i < |p| :: PlainChar(p[i]) }

  lemma EscapePlainChar(c: char, s: string)
    requires PlainChar(c)
    ensures Escape([c] + s, true) == [c] + Escape(s, true)
  {
    assert ([c] + s)[1..] == s;
  }

  lemma HeadAndTail(p: string, s: string)
    requires |p| > 0
    ensures p + s == [p[0]] + (p[1..] + s)
  {
  }

  lemma PlainTail(p: string)
    requires |p| > 0 && PlainChars(p)
    ensures PlainChar(p[0]) && PlainChars(p[1..])
  {
  }

  lemma {:induction false} EscapePlain(p: string, s: string)
    requires PlainChars(p)
    ensures Escape(p + s, true) == p + Escape(s, true)
  {
    if |p| == 0 {
      assert p + s == s;
    } else {
      PlainTail(p);
      EscapePlain(p[1..], s);
      HeadAndTail(p, s);
      EscapePlainChar(p[0], p[1..] + s);
      HeadAndTail(p, Escape(s, true));
    }
  }

  lemma EscapeKeepsPrefix(href: string, p: string)
    requires HasPrefix(href, p) && PlainChars(p)
    ensures HasPrefix(Escape(href, true), p)
  {
    assert href == p + href[|p|..];
    EscapePlain(p, href[|p|..]);
    assert (p + Escape(href[|p|..], true))[..|p|] == p;
  }

  /** A safe target is still safe once it is escaped for an attribute. */
  lemma EscapedTargetIsSafe(href: string)
    requires SafeTarget(href)
    ensures SafeTarget(Escape(href, true))
  {
    if HasPrefix(href, "#") {
      EscapeKeepsPrefix(href, "#");
    } else if HasPrefix(href, "/") {
      EscapeKeepsPrefix(href, "/");
    } else if HasPrefix(href, "http://") {
      EscapeKeepsPrefix(href, "http://");
    } else if HasPrefix(href, "https://") {
      EscapeKeepsPrefix(href, "https://");
    } else {
      EscapeKeepsPrefix(href, "mailto:");
    }
  }
}
