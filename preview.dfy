/** `TemplatePreview._render_template`: the HTML page a template's content
 *  and style render to. Dicts carry no order here, so the iteration orders
 *  of the style dict and of each of its rule dicts are parameters. */
module Preview {
  import opened Wrappers
  import opened PyValue

  /** The fixed lines before the custom style rules. */
  const Head: seq<string> := [
    "<!DOCTYPE html>", "<html>", "<head>", "<meta charset='utf-8'>", "<title>模板预览</title>", "<style>",
    "body { font-family: Arial, sans-serif; margin: 20px; }", "h1 { color: #333; }", "h2 { color: #666; }",
    "p { line-height: 1.6; }"]

  /** The fixed lines between the style rules and the content. */
  const Middle: seq<string> := ["</style>", "</head>", "<body>"]

  /** The fixed closing lines. */
  const Tail: seq<string> := ["</body>", "</html>"]

  /** `"\n".join(lines)` */
  function Join(lines: seq<string>): string {
    if lines == [] then ""
    else if |lines| == 1 then lines[0]
    else lines[0] + "\n" + Join(lines[1..])
  }

  /** `"{prop}: {value}; "` for each property in the order `order`. */
  function Declarations(props: map<Value, Value>, order: seq<Value>): string
    requires forall p :: p in order ==> p in props
  {
    if order == [] then ""
    else
      var p := order[|order| - 1];
      Declarations(props, order[..|order| - 1]) + Str(p) + ": " + Str(props[p]) + "; "
  }

  /** The CSS rule for one dict-valued style entry. */
  function Rule(selector: Value, props: map<Value, Value>, order: seq<Value>): string
    requires forall p :: p in order ==> p in props
  {
    Str(selector) + " { " + Declarations(props, order) + "}"
  }

  /** The orders cover what the rules read: every selector of `styleOrder`
   *  is a style key, and each dict-valued entry has an order of its keys. */
  predicate OrdersCover(style: map<Value, Value>, styleOrder: seq<Value>, propertyOrders: map<Value, seq<Value>>) {
    (forall k :: k in styleOrder ==> k in style) &&
    (forall k :: k in styleOrder && style[k].VDict? ==>
       k in propertyOrders && forall p :: p in propertyOrders[k] ==> p in style[k].entries)
  }

  /** The iteration orders of the style dict and of each of its dict-valued
   *  entries: each lists its dict's keys exactly once. */
  predicate StyleOrders(style: map<Value, Value>, styleOrder: seq<Value>, propertyOrders: map<Value, seq<Value>>) {
    IsOrderOf(styleOrder, style) &&
    forall k :: k in style && style[k].VDict? ==> k in propertyOrders && IsOrderOf(propertyOrders[k], style[k].entries)
  }

  /** The dict-valued entries of the style. */
  function DictEntries(style: map<Value, Value>): set<Value> {
    set k | k in style && style[k].VDict?
  }

  /** The custom rules: one per dict-valued entry, in style order; any other
   *  entry is skipped. */
  function StyleRules(style: map<Value, Value>, styleOrder: seq<Value>, propertyOrders: map<Value, seq<Value>>): seq<string>
    requires OrdersCover(style, styleOrder, propertyOrders)
  {
    if styleOrder == [] then []
    else
      var k := styleOrder[|styleOrder| - 1];
      var init := StyleRules(style, styleOrder[..|styleOrder| - 1], propertyOrders);
      if style[k].VDict? then init + [Rule(k, style[k].entries, propertyOrders[k])] else init
  }

  /** A line is a custom rule exactly when it is the rule of a dict-valued
   *  entry; there is at most one rule per entry. */
  lemma {:induction false} OnlyDictEntriesBecomeRules(style: map<Value, Value>, styleOrder: seq<Value>,
                                                      propertyOrders: map<Value, seq<Value>>, line: string)
    requires OrdersCover(style, styleOrder, propertyOrders)
    ensures line in StyleRules(style, styleOrder, propertyOrders) <==>
            exists i :: 0 <= i < |styleOrder| && style[styleOrder[i]].VDict? &&
                        line == Rule(styleOrder[i], style[styleOrder[i]].entries, propertyOrders[styleOrder[i]])
    ensures |StyleRules(style, styleOrder, propertyOrders)| <= |styleOrder|
  {
    if styleOrder != [] {
      var n := |styleOrder| - 1;
      var init := styleOrder[..n];
      OnlyDictEntriesBecomeRules(style, init, propertyOrders, line);
      assert forall i :: 0 <= i < n ==> init[i] == styleOrder[i];
    }
  }

  /** With the iteration orders of the dicts, every dict-valued style entry
   *  gets its rule, and there are exactly as many rules as such entries. */
  lemma OneRulePerDictEntry(style: map<Value, Value>, styleOrder: seq<Value>, propertyOrders: map<Value, seq<Value>>)
    requires StyleOrders(style, styleOrder, propertyOrders)
    ensures forall k :: k in style && style[k].VDict? ==>
              Rule(k, style[k].entries, propertyOrders[k]) in StyleRules(style, styleOrder, propertyOrders)
    ensures |StyleRules(style, styleOrder, propertyOrders)| == |DictEntries(style)|
  {
    forall k | k in style && style[k].VDict?
      ensures Rule(k, style[k].entries, propertyOrders[k]) in StyleRules(style, styleOrder, propertyOrders)
    {
      var i :| 0 <= i < |styleOrder| && styleOrder[i] == k;
      OnlyDictEntriesBecomeRules(style, styleOrder, propertyOrders, Rule(k, style[k].entries, propertyOrders[k]));
    }
    RuleCount(style, styleOrder, propertyOrders);
    assert (set k | k in styleOrder && style[k].VDict?) == DictEntries(style);
  }

  /** Over an order without repeats, there is one rule per dict-valued
   *  entry it lists. */
  lemma {:induction false} RuleCount(style: map<Value, Value>, styleOrder: seq<Value>, propertyOrders: map<Value, seq<Value>>)
    requires OrdersCover(style, styleOrder, propertyOrders)
    requires forall i, j :: 0 <= i < j < |styleOrder| ==> styleOrder[i] != styleOrder[j]
    ensures |StyleRules(style, styleOrder, propertyOrders)| == |set k | k in styleOrder && style[k].VDict?|
  {
    if styleOrder != [] {
      var n := |styleOrder| - 1;
      var init, k := styleOrder[..n], styleOrder[n];
      RuleCount(style, init, propertyOrders);
      assert styleOrder == init + [k];
      assert k !in init;
      DictKeysStep(style, init, k);
    }
  }

  /** One more listed key adds one dict-valued entry when its value is a dict. */
  lemma DictKeysStep(style: map<Value, Value>, init: seq<Value>, k: Value)
    requires (forall x :: x in init ==> x in style) && k in style && k !in init
    ensures |set x | x in init + [k] && style[x].VDict?| ==
            |set x | x in init && style[x].VDict?| + (if style[k].VDict? then 1 else 0)
  {
    var before := set x | x in init && style[x].VDict?;
    var after := set x | x in init + [k] && style[x].VDict?;
    if style[k].VDict? {
      assert after == before + {k};
    } else {
      assert after == before;
    }
  }

  /** The lines of `items` rendered one by one with `render`, in order; the
   *  first item that raises stops the rendering. */
  function Lines(items: seq<Value>, render: Value -> Result<seq<string>>): Result<seq<string>> {
    if items == [] then Ok([])
    else
      var init :- Lines(items[..|items| - 1], render);
      var last :- render(items[|items| - 1]);
      Ok(init + last)
  }

  /** Rendering two runs of items one after the other is rendering their
   *  concatenation: every item's lines appear in item order. */
  lemma {:induction false} LinesAppend(xs: seq<Value>, ys: seq<Value>, render: Value -> Result<seq<string>>)
    requires Lines(xs, render).Ok? && Lines(ys, render).Ok?
    ensures Lines(xs + ys, render) == Ok(Lines(xs, render).value + Lines(ys, render).value)
    decreases |ys|
  {
    if ys == [] {
      assert xs + ys == xs && Lines(xs, render).value + [] == Lines(xs, render).value;
    } else {
      var n := |ys| - 1;
      var a, b, c := Lines(xs, render).value, Lines(ys[..n], render).value, render(ys[n]).value;
      LinesAppend(xs, ys[..n], render);
      assert (xs + ys)[..|xs + ys| - 1] == xs + ys[..n] && (xs + ys)[|xs + ys| - 1] == ys[n];
      assert a + (b + c) == (a + b) + c;
    }
  }

  /** Once an item raises, the error stands for every longer run. */
  lemma {:induction false} LinesErrorSticks(items: seq<Value>, i: nat, render: Value -> Result<seq<string>>)
    requires i <= |items| && Lines(items[..i], render).Err?
    ensures Lines(items, render) == Lines(items[..i], render)
    decreases |items|
  {
    if |items| > i {
      var init := items[..|items| - 1];
      assert init[..i] == items[..i];
      LinesErrorSticks(init, i, render);
    } else {
      assert items[..i] == items;
    }
  }

  /** One more item of a loop over `items`: its lines follow the earlier
   *  ones, or its error is the outcome of the whole loop. */
  lemma LinesStep(items: seq<Value>, i: nat, render: Value -> Result<seq<string>>, acc: seq<string>,
                  one: Result<seq<string>>)
    requires i < |items| && Lines(items[..i], render) == Ok(acc) && one == render(items[i])
    ensures one.Ok? ==> Lines(items[..i + 1], render) == Ok(acc + one.value)
    ensures one.Err? ==> Lines(items, render) == Err(one.error)
  {
    assert items[..i + 1][..i] == items[..i];
    if one.Err? {
      LinesErrorSticks(items, i + 1, render);
    }
  }

  /** `"word" in key` on a dict key, then `key["word"]` on it: a string key
   *  holding `first` or `second` raises TypeError at the subscript, and any
   *  other key but a string raises TypeError at `in`. */
  predicate KeyRaises(k: Value, first: string, second: string) {
    !k.VStr? || IsSubstring(first, k.s) || IsSubstring(second, k.s)
  }

  /** `for item in v`: a list yields its items, a string its characters, a
   *  dict its keys, whose rendering only ever raises or yields nothing, so
   *  that the order of the keys makes no difference; anything else is not
   *  iterable. */
  function Over(v: Value, render: Value -> Result<seq<string>>, first: string, second: string): Result<seq<string>> {
    match v
    case VList(items) => Lines(items, render)
    case VStr(s) => Lines(Chars(s), render)
    case VDict(m) => if exists k :: k in m && KeyRaises(k, first, second) then Err(TypeError) else Ok([])
    case _ => Err(TypeError)
  }

  /** The one-character strings of `s`. */
  function Chars(s: string): (r: seq<Value>)
    ensures |r| == |s| && forall i :: 0 <= i < |s| ==> r[i] == VStr([s[i]])
  {
    seq(|s|, i requires 0 <= i < |s| => VStr([s[i]]))
  }

  /** `f"<{tag}>{text}</{tag}>"` */
  function Element(tag: string, text: string): string {
    "<" + tag + ">" + text + "</" + tag + ">"
  }

  /** The three elements the content renders to, spelt out. */
  lemma ElementsSpelt(text: string)
    ensures Element("h1", text) == "<h1>" + text + "</h1>"
    ensures Element("h2", text) == "<h2>" + text + "</h2>"
    ensures Element("p", text) == "<p>" + text + "</p>"
  {
    assert Element("h1", text) == "<h1>" + text + "</h1>" by {
      assert "<" + "h1" + ">" == "<h1>" && "</" + "h1" + ">" == "</h1>";
    }
    assert Element("h2", text) == "<h2>" + text + "</h2>" by {
      assert "<" + "h2" + ">" == "<h2>" && "</" + "h2" + ">" == "</h2>";
    }
    assert Element("p", text) == "<p>" + text + "</p>" by {
      assert "<" + "p" + ">" == "<p>" && "</" + "p" + ">" == "</p>";
    }
  }

  /** `f"<{tag}>{v}</{tag}>"` for `item[word]` when `word in item`. */
  function Tagged(item: Value, word: string, tag: string): Result<seq<string>> {
    var present :- Contains(item, VStr(word));
    if present then
      var v :- GetItem(item, VStr(word));
      Ok([Element(tag, Str(v))])
    else Ok([])
  }

  /** One section: its title as `<h2>`, then its content as `<p>`. */
  function SectionLines(section: Value): Result<seq<string>> {
    var title :- Tagged(section, "title", "h2");
    var body :- Tagged(section, "content", "p");
    Ok(title + body)
  }

  /** One chapter: its title as `<h1>`, then its sections. */
  function ChapterLines(chapter: Value): Result<seq<string>> {
    var title :- Tagged(chapter, "title", "h1");
    var present :- Contains(chapter, VStr("sections"));
    if present then
      var sections :- GetItem(chapter, VStr("sections"));
      var lines :- Over(sections, SectionLines, "title", "content");
      Ok(title + lines)
    else Ok(title)
  }

  /** The content lines: the chapters, when there are any. */
  function BodyLines(content: map<Value, Value>): Result<seq<string>> {
    if VStr("chapters") in content then Over(content[VStr("chapters")], ChapterLines, "title", "sections") else Ok([])
  }

  /** `_render_template` */
  function Render(content: map<Value, Value>, style: map<Value, Value>, styleOrder: seq<Value>,
                  propertyOrders: map<Value, seq<Value>>): Result<string>
    requires StyleOrders(style, styleOrder, propertyOrders)
  {
    var body :- BodyLines(content);
    var rules := if style == map[] then [] else StyleRules(style, styleOrder, propertyOrders);
    Ok(Join(Head + rules + Middle + body + Tail))
  }

  /** The joined text starts with the first line. */
  lemma {:induction false} JoinStartsWithFirst(lines: seq<string>)
    requires lines != []
    ensures |lines[0]| <= |Join(lines)| && Join(lines)[..|lines[0]|] == lines[0]
  {
    if |lines| > 1 {
      var rest := Join(lines[1..]);
      assert Join(lines) == lines[0] + ("\n" + rest);
    }
  }

  /** The joined text ends with the last line. */
  lemma {:induction false} JoinEndsWithLast(lines: seq<string>)
    requires lines != []
    ensures var last := lines[|lines| - 1];
            |last| <= |Join(lines)| && Join(lines)[|Join(lines)| - |last|..] == last
    decreases |lines|
  {
    if |lines| > 1 {
      var rest := lines[1..];
      JoinEndsWithLast(rest);
      var j := Join(rest);
      var last := lines[|lines| - 1];
      assert rest[|rest| - 1] == last;
      assert Join(lines) == (lines[0] + "\n") + j;
      assert Join(lines)[|Join(lines)| - |last|..] == j[|j| - |last|..];
    }
  }

  /** A rendering that succeeds is a whole HTML page: it starts with the
   *  doctype and ends with `</html>`. It fails exactly when the content
   *  raises; the style never makes it fail. */
  lemma RenderIsPage(content: map<Value, Value>, style: map<Value, Value>, styleOrder: seq<Value>,
                     propertyOrders: map<Value, seq<Value>>)
    requires StyleOrders(style, styleOrder, propertyOrders)
    ensures Render(content, style, styleOrder, propertyOrders).Ok? <==> BodyLines(content).Ok?
    ensures var r := Render(content, style, styleOrder, propertyOrders);
            r.Ok? ==> |r.value| >= 15 && r.value[..15] == "<!DOCTYPE html>" && r.value[|r.value| - 7..] == "</html>"
  {
    var r := Render(content, style, styleOrder, propertyOrders);
    if r.Ok? {
      var rules := if style == map[] then [] else StyleRules(style, styleOrder, propertyOrders);
      var lines := Head + rules + Middle + BodyLines(content).value + Tail;
      assert lines[0] == "<!DOCTYPE html>";
      assert lines[|lines| - 1] == "</html>";
      JoinStartsWithFirst(lines);
      JoinEndsWithLast(lines);
    }
  }

  /** `word in d` then `d[word]` on a dict. */
  lemma DictTagged(m: map<Value, Value>, word: string, tag: string)
    ensures Tagged(VDict(m), word, tag) ==
            Ok(if VStr(word) in m then [Element(tag, Str(m[VStr(word)]))] else [])
  {
    assert Contains(VDict(m), VStr(word)) == Ok(VStr(word) in m);
  }

  /** A dict chapter renders its title as an `<h1>` line first, then, when
   *  it has sections, each section's lines in order. */
  lemma DictChapter(m: map<Value, Value>)
    ensures var r := ChapterLines(VDict(m));
            var title := if VStr("title") in m then [Element("h1", Str(m[VStr("title")]))] else [];
            (VStr("sections") !in m ==> r == Ok(title)) &&
            (VStr("sections") in m ==>
               r == (var lines :- Over(m[VStr("sections")], SectionLines, "title", "content"); Ok(title + lines)))
  {
    DictTagged(m, "title", "h1");
    assert Contains(VDict(m), VStr("sections")) == Ok(VStr("sections") in m);
  }

  /** A dict section renders its title as `<h2>`, then its content as `<p>`. */
  lemma DictSection(m: map<Value, Value>)
    ensures SectionLines(VDict(m)) ==
            Ok((if VStr("title") in m then [Element("h2", Str(m[VStr("title")]))] else []) +
               (if VStr("content") in m then [Element("p", Str(m[VStr("content")]))] else []))
  {
    DictTagged(m, "title", "h2");
    DictTagged(m, "content", "p");
  }

  /** Every chapter is a dict with a title and no sections. */
  predicate TitledOnly(chapters: seq<Value>) {
    forall i :: 0 <= i < |chapters| ==>
      chapters[i].VDict? && VStr("title") in chapters[i].entries && VStr("sections") !in chapters[i].entries
  }

  /** The `<h1>` titles of such chapters, in order. */
  function Headings(chapters: seq<Value>): seq<string>
    requires TitledOnly(chapters)
  {
    if chapters == [] then []
    else
      var last := chapters[|chapters| - 1];
      Headings(chapters[..|chapters| - 1]) + [Element("h1", Str(last.entries[VStr("title")]))]
  }

  /** Chapters given as a list of titled dicts without sections render as
   *  their `<h1>` titles, one per chapter, in order. */
  lemma {:induction false} TitledChaptersInOrder(chapters: seq<Value>)
    requires TitledOnly(chapters)
    ensures Lines(chapters, ChapterLines) == Ok(Headings(chapters))
    ensures |Headings(chapters)| == |chapters|
    ensures forall i :: 0 <= i < |chapters| ==>
              Headings(chapters)[i] == Element("h1", Str(chapters[i].entries[VStr("title")]))
    decreases |chapters|
  {
    if chapters != [] {
      var n := |chapters| - 1;
      TitledChaptersInOrder(chapters[..n]);
      DictChapter(chapters[n].entries);
    }
  }

  /** A string where a list of sections or chapters is expected renders
   *  nothing: no one-character string holds a five-letter word. */
  lemma {:induction false} StringRendersNothing(s: string, render: Value -> Result<seq<string>>)
    requires render == SectionLines || render == ChapterLines
    ensures Lines(Chars(s), render) == Ok([])
    decreases |s|
  {
    if s != [] {
      var n := |s| - 1;
      assert Chars(s)[..n] == Chars(s[..n]);
      StringRendersNothing(s[..n], render);
      CharRendersNothing(s[n]);
      assert render(Chars(s)[n]) == Ok([]);
    }
  }

  /** A one-character string renders nothing, as a section or a chapter. */
  lemma CharRendersNothing(c: char)
    ensures SectionLines(VStr([c])) == Ok([]) && ChapterLines(VStr([c])) == Ok([])
  {
    forall word | word in ["title", "content", "sections"] ensures !IsSubstring(word, [c]) {
      assert !IsSubstring(word, []);
    }
    assert Tagged(VStr([c]), "title", "h2") == Ok([]);
    assert Tagged(VStr([c]), "content", "p") == Ok([]);
    assert Tagged(VStr([c]), "title", "h1") == Ok([]);
    assert Contains(VStr([c]), VStr("sections")) == Ok(false);
    var none: seq<string> := [];
    assert none + none == none;
    assert SectionLines(VStr([c])) == Ok(none + none);
  }

  /** The style loop: one rule per dict-valued entry. */
  method AppendStyleRules(lines: seq<string>, style: map<Value, Value>, styleOrder: seq<Value>,
                          propertyOrders: map<Value, seq<Value>>) returns (out: seq<string>)
    requires OrdersCover(style, styleOrder, propertyOrders)
    ensures out == lines + StyleRules(style, styleOrder, propertyOrders)
  {
    out := lines;
    var i := 0;
    while i < |styleOrder|
      invariant i <= |styleOrder|
      invariant out == lines + StyleRules(style, styleOrder[..i], propertyOrders)
    {
      var selector := styleOrder[i];
      assert styleOrder[..i + 1][..i] == styleOrder[..i];
      if style[selector].VDict? {
        var rule := RuleText(selector, style[selector].entries, propertyOrders[selector]);
        out := out + [rule];
      }
      i := i + 1;
    }
    assert styleOrder[..i] == styleOrder;
  }

  /** One more property adds its declaration at the end. */
  lemma DeclarationsStep(props: map<Value, Value>, order: seq<Value>, j: nat)
    requires j < |order| && forall p :: p in order ==> p in props
    ensures Declarations(props, order[..j + 1]) ==
            Declarations(props, order[..j]) + (Str(order[j]) + ": " + Str(props[order[j]]) + "; ")
  {
    assert order[..j + 1][..j] == order[..j];
  }

  /** Appending to a text that starts with `head`. */
  lemma AppendAfter(head: string, before: string, more: string)
    ensures head + (before + more) == head + before + more
  {
  }

  /** The rule text built declaration by declaration. */
  method RuleText(selector: Value, props: map<Value, Value>, order: seq<Value>) returns (rule: string)
    requires forall p :: p in order ==> p in props
    ensures rule == Rule(selector, props, order)
  {
    rule := Str(selector) + " { ";
    ghost var head := rule;
    var j := 0;
    assert order[..0] == [];
    while j < |order|
      invariant j <= |order|
      invariant rule == head + Declarations(props, order[..j])
    {
      var declaration := Str(order[j]) + ": " + Str(props[order[j]]) + "; ";
      DeclarationsStep(props, order, j);
      AppendAfter(head, Declarations(props, order[..j]), declaration);
      rule := rule + declaration;
      j := j + 1;
    }
    assert order[..j] == order;
    rule := rule + "}";
  }

  /** `f"<{tag}>{item[word]}</{tag}>"` when `word in item`. */
  method TaggedLines(item: Value, word: string, tag: string) returns (r: Result<seq<string>>)
    ensures r == Tagged(item, word, tag)
  {
    var present := Contains(item, VStr(word));
    if present.Err? {
      return Err(present.error);
    }
    if present.value {
      var v := GetItem(item, VStr(word));
      if v.Err? {
        return Err(v.error);
      }
      return Ok([Element(tag, Str(v.value))]);
    }
    return Ok([]);
  }

  method RenderSection(section: Value) returns (r: Result<seq<string>>)
    ensures r == SectionLines(section)
  {
    var title := TaggedLines(section, "title", "h2");
    if title.Err? {
      return title;
    }
    var body := TaggedLines(section, "content", "p");
    if body.Err? {
      return body;
    }
    return Ok(title.value + body.value);
  }

  method RenderChapter(chapter: Value) returns (r: Result<seq<string>>)
    ensures r == ChapterLines(chapter)
  {
    var title := TaggedLines(chapter, "title", "h1");
    if title.Err? {
      return title;
    }
    var present := Contains(chapter, VStr("sections"));
    if present.Err? {
      return Err(present.error);
    }
    if !present.value {
      return title;
    }
    var sections := GetItem(chapter, VStr("sections"));
    if sections.Err? {
      return Err(sections.error);
    }
    var lines := RenderSections(sections.value);
    if lines.Err? {
      return lines;
    }
    return Ok(title.value + lines.value);
  }

  /** `for section in chapter["sections"]` */
  method RenderSections(v: Value) returns (r: Result<seq<string>>)
    ensures r == Over(v, SectionLines, "title", "content")
  {
    if v.VDict? {
      r := RenderKeys(v.entries, "title", "content");
      return;
    }
    if !v.VList? && !v.VStr? {
      return Err(TypeError);
    }
    var items := if v.VList? then v.items else Chars(v.s);
    var acc: seq<string> := [];
    var i := 0;
    while i < |items|
      invariant i <= |items|
      invariant Lines(items[..i], SectionLines) == Ok(acc)
    {
      var one := RenderSection(items[i]);
      LinesStep(items, i, SectionLines, acc, one);
      if one.Err? {
        return Err(one.error);
      }
      acc := acc + one.value;
      i := i + 1;
    }
    assert items[..i] == items;
    return Ok(acc);
  }

  /** `for chapter in content["chapters"]` */
  method RenderChapters(v: Value) returns (r: Result<seq<string>>)
    ensures r == Over(v, ChapterLines, "title", "sections")
  {
    if v.VDict? {
      r := RenderKeys(v.entries, "title", "sections");
      return;
    }
    if !v.VList? && !v.VStr? {
      return Err(TypeError);
    }
    var items := if v.VList? then v.items else Chars(v.s);
    var acc: seq<string> := [];
    var i := 0;
    while i < |items|
      invariant i <= |items|
      invariant Lines(items[..i], ChapterLines) == Ok(acc)
    {
      var one := RenderChapter(items[i]);
      LinesStep(items, i, ChapterLines, acc, one);
      if one.Err? {
        return Err(one.error);
      }
      acc := acc + one.value;
      i := i + 1;
    }
    assert items[..i] == items;
    return Ok(acc);
  }

  /** Iterating a dict: its keys, in whatever order, each raising or
   *  yielding nothing. */
  method RenderKeys(m: map<Value, Value>, first: string, second: string) returns (r: Result<seq<string>>)
    ensures r == (if exists k :: k in m && KeyRaises(k, first, second) then Err(TypeError) else Ok([]))
  {
    var remaining := m.Keys;
    while remaining != {}
      invariant remaining <= m.Keys
      invariant forall k :: k in m && k !in remaining ==> !KeyRaises(k, first, second)
      decreases remaining
    {
      var k :| k in remaining;
      if KeyRaises(k, first, second) {
        return Err(TypeError);
      }
      remaining := remaining - {k};
    }
    return Ok([]);
  }

  /** `_render_template`, building the list of lines and joining it. */
  method RenderTemplate(content: map<Value, Value>, style: map<Value, Value>, styleOrder: seq<Value>,
                        propertyOrders: map<Value, seq<Value>>) returns (r: Result<string>)
    requires StyleOrders(style, styleOrder, propertyOrders)
    ensures r == Render(content, style, styleOrder, propertyOrders)
  {
    var lines := Head;
    if style != map[] {
      lines := AppendStyleRules(lines, style, styleOrder, propertyOrders);
    }
    lines := lines + Middle;
    if VStr("chapters") in content {
      var body := RenderChapters(content[VStr("chapters")]);
      if body.Err? {
        return Err(body.error);
      }
      lines := lines + body.value;
    }
    var rules := if style == map[] then [] else StyleRules(style, styleOrder, propertyOrders);
    assert lines == Head + rules + Middle + BodyLines(content).value;
    lines := lines + Tail;
    return Ok(Join(lines));
  }
}
