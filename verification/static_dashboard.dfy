/** The dashboard asset service of
    be/apps/core/src/modules/infrastructure/static-web/static-dashboard.service.ts:
    the basename under which the dashboard bundle is served, the list of
    directories searched for the bundle, and the script that tells the
    client-side router its basename, injected into every served HTML page. */
module StaticDashboard {
  import opened Common

  /** The route segment the dashboard lives under. */
  const Basename: string := "/platform"

  /** The DOM id of the injected script element. */
  const ScriptId: string := "afilmory-dashboard-basename"

  const HexDigits: string := "0123456789abcdef"

  /** One character as `JSON.stringify` writes it inside a string literal. */
  function JsonEscapeChar(c: char): string {
    if c == '"' then "\\\""
    else if c == '\\' then "\\\\"
    else if c == '\n' then "\\n"
    else if c == '\r' then "\\r"
    else if c == '\t' then "\\t"
    else if c == '\U{08}' then "\\b"
    else if c == '\U{0C}' then "\\f"
    else if (c as int) < 0x20 then "\\u00" + [HexDigits[(c as int) / 16], HexDigits[(c as int) % 16]]
    else [c]
  }

  /** The body of `JSON.stringify(s)`: every character escaped in turn. */
  function JsonEscape(s: string): string {
    if s == [] then "" else JsonEscapeChar(s[0]) + JsonEscape(s[1..])
  }

  /** `JSON.stringify(s)` for a string `s`. */
  function JsonQuote(s: string): string {
    "\"" + JsonEscape(s) + "\""
  }

  /** The assignment to the global the dashboard reads at start-up. */
  const ScriptPrefix: string := "window.__AFILMORY_DASHBOARD_BASENAME__ = "

  /** The text of the injected script: the JSON-encoded basename assigned
      to a global the dashboard reads at start-up. */
  function ScriptText(): (r: string)
    ensures ScriptPrefix <= r && r[|r| - 1] == ';'
  {
    ScriptPrefix + JsonQuote(Basename) + ";"
  }

  /** Characters `JSON.stringify` copies unchanged. */
  predicate PlainJsonChar(c: char) {
    (c as int) >= 0x20 && c != '"' && c != '\\'
  }

  lemma {:induction false} JsonEscapePlain(s: string)
    requires forall i :: 0 <= i < |s| ==> PlainJsonChar(s[i])
    ensures JsonEscape(s) == s
  {
    if s != [] {
      JsonEscapePlain(s[1..]);
    }
  }

  /** Escaping never shortens the text: each character becomes one or
      more characters. */
  lemma {:induction false} JsonEscapeNeverShorter(s: string)
    ensures |JsonEscape(s)| >= |s|
  {
    if s != [] {
      assert JsonEscapeChar(s[0]) != [];
      JsonEscapeNeverShorter(s[1..]);
    }
  }

  /** `JSON.stringify` of a string is delimited by double quotes around at
      least as many characters as the string has. */
  lemma JsonQuoteDelimited(s: string)
    ensures |JsonQuote(s)| >= |s| + 2
    ensures JsonQuote(s)[0] == '"' && JsonQuote(s)[|JsonQuote(s)| - 1] == '"'
  {
    JsonEscapeNeverShorter(s);
  }

  /** Text without characters `JSON.stringify` escapes is quoted as it
      stands. */
  lemma JsonQuotePlain(s: string)
    requires forall i :: 0 <= i < |s| ==> PlainJsonChar(s[i])
    ensures JsonQuote(s) == "\"" + s + "\""
  {
    JsonEscapePlain(s);
  }

  /** The injected text is the assignment of the quoted basename, which
      `JSON.stringify` copies between the quotes unescaped. */
  lemma ScriptTextIsLiteral()
    ensures ScriptText() == "window.__AFILMORY_DASHBOARD_BASENAME__ = " + "\"" + Basename + "\"" + ";"
  {
    BasenameIsPlain();
    JsonQuotePlain(Basename);
  }

  /** The basename holds no character `JSON.stringify` escapes. */
  lemma BasenameIsPlain()
    ensures forall i :: 0 <= i < |Basename| ==> PlainJsonChar(Basename[i])
  {
  }

  // ---------------------------------------------------------------------
  // Root candidates
  // ---------------------------------------------------------------------

  /** The candidate bundle directories: the resolved paths with non-strings
      and empty strings filtered out, then de-duplicated through a `Set`
      (first occurrence wins, order kept). Path resolution itself is done by
      `node:path`, so the resolved paths are the input here. */
  function RootCandidates(resolved: seq<string>): (r: seq<string>)
    ensures NoDuplicates(r)
    ensures "" !in r
    ensures forall i :: 0 <= i < |r| ==> r[i] in resolved
    ensures forall i :: 0 <= i < |resolved| && resolved[i] != "" ==> resolved[i] in r
    ensures forall i, j :: 0 <= i < j < |r| ==> FirstIndex(resolved, r[i]) < FirstIndex(resolved, r[j])
  {
    var kept := NonEmpty(resolved);
    DedupeKeepsFirstOrder(kept);
    NonEmptyKeepsOrder(resolved);
    Dedupe(kept)
  }

  /** The non-empty strings, every one of them, in their original order. */
  function NonEmpty(s: seq<string>): (r: seq<string>)
    ensures IsSubsequence(r, s)
    ensures forall x :: multiset(r)[x] == if x == "" then 0 else multiset(s)[x]
    ensures "" !in r
    ensures forall x :: x in r <==> x in s && x != ""
  {
    if s == [] then []
    else
      assert s == [s[0]] + s[1..];
      if s[0] == "" then NonEmpty(s[1..])
      else
        var r := [s[0]] + NonEmpty(s[1..]);
        assert r[1..] == NonEmpty(s[1..]);
        r
  }

  /** Dropping the empty strings leaves the order of first occurrences of
      the others as it was. */
  lemma {:induction false} NonEmptyKeepsOrder(s: seq<string>)
    ensures forall x, y :: x != "" && y != "" ==>
      (FirstIndex(NonEmpty(s), x) < FirstIndex(NonEmpty(s), y) <==> FirstIndex(s, x) < FirstIndex(s, y))
  {
    if s != [] {
      var t := s[1..];
      NonEmptyKeepsOrder(t);
      forall x, y | x != "" && y != ""
        ensures FirstIndex(NonEmpty(s), x) < FirstIndex(NonEmpty(s), y) <==> FirstIndex(s, x) < FirstIndex(s, y)
      {
        FirstIndexCons(s, x);
        FirstIndexCons(s, y);
        if s[0] != "" {
          assert NonEmpty(s) == [s[0]] + NonEmpty(t);
          FirstIndexCons(NonEmpty(s), x);
          FirstIndexCons(NonEmpty(s), y);
          assert NonEmpty(s)[1..] == NonEmpty(t);
        } else {
          assert NonEmpty(s) == NonEmpty(t);
        }
      }
    }
  }

  // ---------------------------------------------------------------------
  // Basename script injection
  // ---------------------------------------------------------------------

  /** A DOM element as far as the injection cares about it. */
  datatype Element = Element(tag: string, id: string, scriptType: string, text: string)

  /** A parsed HTML document: the children of `<head>` (absent when the
      document has no head) and the remaining elements, in document order. */
  datatype Document = Document(head: Option<seq<Element>>, body: seq<Element>)

  function Elements(d: Document): seq<Element> {
    (if d.head.Some? then d.head.value else []) + d.body
  }

  function CountWithId(es: seq<Element>, id: string): nat {
    if es == [] then 0
    else (if es[0].id == id then 1 else 0) + CountWithId(es[1..], id)
  }

  /** `querySelector('#id')`: the index of the first element with the id. */
  function FirstWithId(es: seq<Element>, id: string): (r: Option<nat>)
    ensures r.Some? ==> r.value < |es| && es[r.value].id == id
    ensures r.Some? ==> forall i :: 0 <= i < r.value ==> es[i].id != id
    ensures r.None? ==> forall i :: 0 <= i < |es| ==> es[i].id != id
  {
    if es == [] then None
    else if es[0].id == id then Some(0)
    else match FirstWithId(es[1..], id)
      case None => None
      case Some(k) => Some(k + 1)
  }

  /** The element that `injectBasenameScript` appends when there is none. */
  function NewScript(): Element {
    Element("script", ScriptId, "text/javascript", ScriptText())
  }

  /** Replaces the text of the `k`-th element in document order. */
  function SetTextAt(d: Document, k: nat, text: string): (r: Document)
    requires d.head.Some? && k < |Elements(d)|
    ensures r.head.Some? && |r.head.value| == |d.head.value|
    ensures Elements(r) == Elements(d)[k := Elements(d)[k].(text := text)]
  {
    var head := d.head.value;
    if k < |head| then Document(Some(head[k := head[k].(text := text)]), d.body)
    else Document(d.head, d.body[k - |head| := d.body[k - |head|].(text := text)])
  }

  /** `injectBasenameScript`: without a head the document is left alone;
      an existing element with the script id anywhere in the document gets
      its text replaced; otherwise a new script is appended to the head. */
  function InjectBasenameScript(d: Document): (r: Document)
    ensures d.head.None? ==> r == d
    ensures d.head.Some? ==> r.head.Some?
  {
    if d.head.None? then d
    else
      match FirstWithId(Elements(d), ScriptId)
      case Some(k) => SetTextAt(d, k, ScriptText())
      case None => Document(Some(d.head.value + [NewScript()]), d.body)
  }

  /** The first element with the script id carries the basename script. */
  predicate ScriptInPlace(d: Document) {
    match FirstWithId(Elements(d), ScriptId)
    case Some(k) => Elements(d)[k].text == ScriptText()
    case None => false
  }

  /** With a head present, injection leaves exactly one script when there
      was none and otherwise keeps the number of elements with the id; the
      first of them carries the basename script text. */
  lemma {:induction false} InjectBasenameScriptFacts(d: Document)
    requires d.head.Some?
    ensures var c := CountWithId(Elements(d), ScriptId);
            CountWithId(Elements(InjectBasenameScript(d)), ScriptId) == if c == 0 then 1 else c
    ensures ScriptInPlace(InjectBasenameScript(d))
  {
    var r := InjectBasenameScript(d);
    match FirstWithId(Elements(d), ScriptId)
    case Some(k) =>
      UpdateTextFacts(Elements(d), k, ScriptText(), ScriptId);
      SomeMeansPositive(Elements(d), k, ScriptId);
    case None =>
      NoneMeansZero(Elements(d), ScriptId);
      AppendFacts(d.head.value, d.body, NewScript(), ScriptId);
      assert Elements(r) == d.head.value + [NewScript()] + d.body;
  }

  lemma CountSplit(a: seq<Element>, b: seq<Element>, id: string)
    ensures CountWithId(a + b, id) == CountWithId(a, id) + CountWithId(b, id)
  {
    if a == [] {
      assert a + b == b;
    } else {
      assert (a + b)[1..] == a[1..] + b;
      CountSplit(a[1..], b, id);
    }
  }

  lemma UpdateTextFacts(es: seq<Element>, k: nat, text: string, id: string)
    requires k < |es| && FirstWithId(es, id) == Some(k)
    ensures var es' := es[k := es[k].(text := text)];
            && CountWithId(es', id) == CountWithId(es, id)
            && FirstWithId(es', id) == Some(k)
            && es'[k].text == text
  {
    var es' := es[k := es[k].(text := text)];
    assert es == es[..k] + [es[k]] + es[k + 1..];
    assert es' == es[..k] + [es'[k]] + es[k + 1..];
    CountSplit(es[..k] + [es[k]], es[k + 1..], id);
    CountSplit(es[..k], [es[k]], id);
    CountSplit(es[..k] + [es'[k]], es[k + 1..], id);
    CountSplit(es[..k], [es'[k]], id);
    FirstWithIdAt(es', k, id);
  }

  lemma FirstWithIdAt(es: seq<Element>, k: nat, id: string)
    requires k < |es| && es[k].id == id
    requires forall i :: 0 <= i < k ==> es[i].id != id
    ensures FirstWithId(es, id) == Some(k)
  {
    if k > 0 {
      FirstWithIdAt(es[1..], k - 1, id);
    }
  }

  lemma AppendFacts(head: seq<Element>, body: seq<Element>, e: Element, id: string)
    requires FirstWithId(head + body, id).None?
    requires e.id == id
    ensures CountWithId(head + [e] + body, id) == 1
    ensures FirstWithId(head + [e] + body, id) == Some(|head|)
  {
    var es := head + body;
    NoneMeansZero(es, id);
    CountSplit(head, body, id);
    CountSplit(head + [e], body, id);
    CountSplit(head, [e], id);
    assert forall i :: 0 <= i < |head| ==> head[i] == es[i];
    FirstWithIdAt(head + [e] + body, |head|, id);
  }

  lemma SomeMeansPositive(es: seq<Element>, k: nat, id: string)
    requires k < |es| && es[k].id == id
    ensures CountWithId(es, id) > 0
  {
    if k > 0 {
      SomeMeansPositive(es[1..], k - 1, id);
    }
  }

  lemma NoneMeansZero(es: seq<Element>, id: string)
    requires FirstWithId(es, id).None?
    ensures CountWithId(es, id) == 0
  {
    if es != [] {
      NoneMeansZero(es[1..], id);
    }
  }

  /** Injecting twice is the same as injecting once. */
  lemma {:induction false} InjectIdempotent(d: Document)
    ensures InjectBasenameScript(InjectBasenameScript(d)) == InjectBasenameScript(d)
  {
    if d.head.Some? {
      var r := InjectBasenameScript(d);
      InjectBasenameScriptFacts(d);
      var k := FirstWithId(Elements(r), ScriptId).value;
      var r2 := SetTextAt(r, k, ScriptText());
      assert Elements(r2) == Elements(r);
      ElementsDetermineDocument(r, r2);
    }
  }

  lemma ElementsDetermineDocument(a: Document, b: Document)
    requires a.head.Some? && b.head.Some? && |a.head.value| == |b.head.value|
    requires Elements(a) == Elements(b)
    ensures a == b
  {
    var n := |a.head.value|;
    assert a.head.value == Elements(a)[..n];
    assert b.head.value == Elements(b)[..n];
    assert a.body == Elements(a)[n..];
    assert b.body == Elements(b)[n..];
  }

  lemma InjectOnceFacts(d: Document, c: nat)
    requires d.head.Some? && CountWithId(Elements(d), ScriptId) == c && c <= 1
    ensures InjectBasenameScript(d).head.Some?
    ensures CountWithId(Elements(InjectBasenameScript(d)), ScriptId) == 1
    ensures ScriptInPlace(InjectBasenameScript(d))
  {
    InjectBasenameScriptFacts(d);
  }

  function InjectTimes(d: Document, n: nat): Document {
    if n == 0 then d else InjectBasenameScript(InjectTimes(d, n - 1))
  }

  /** However many times a page is decorated, a document with a head that
      started without the script ends up with exactly one script carrying
      the basename. */
  lemma {:induction false} InjectTimesLeavesOneScript(d: Document, n: nat)
    requires d.head.Some? && CountWithId(Elements(d), ScriptId) == 0 && n >= 1
    ensures InjectTimes(d, n).head.Some?
    ensures CountWithId(Elements(InjectTimes(d, n)), ScriptId) == 1
    ensures ScriptInPlace(InjectTimes(d, n))
  {
    var prev := InjectTimes(d, n - 1);
    var next := InjectTimes(d, n);
    assert next == InjectBasenameScript(prev);
    if n > 1 {
      InjectTimesLeavesOneScript(d, n - 1);
      InjectOnceFacts(prev, 1);
    } else {
      assert prev == d;
      InjectOnceFacts(prev, 0);
    }
  }
}
