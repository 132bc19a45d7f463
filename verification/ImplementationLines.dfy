/** The implementation-line count of `scan_body`: one pass over the lines, and
    the block-by-block meaning it computes. */
module ImplementationLines {
  import opened Text
  import opened Fences

  const IMPL_LANGS: set<string> := {
    "cs", "csharp", "c#", "ts", "tsx", "typescript", "js", "jsx", "javascript",
    "rust", "rs", "python", "py", "java", "go", "vue", "css", "scss", "sql"}
  const SHELL_LANGS: set<string> := {"bash", "sh", "shell", "zsh", "console", "shell-session"}
  const SHELL_MAX_LINES := 12

  function Effective(block: seq<Line>): seq<Line> {
    if block == [] then []
    else Effective(block[..|block| - 1]) + if block[|block| - 1].blank then [] else [block[|block| - 1]]
  }

  /** `shell_script_lines`: a shell block counts once it is a script. */
  function ShellScriptLines(lang: string, block: seq<Line>): nat {
    var body := Effective(block);
    if lang !in SHELL_LANGS then 0
    else if |body| > SHELL_MAX_LINES || exists l | l in body :: l.shellControl then |body|
    else 0
  }

  // -------------------------------------------------- block by block meaning

  datatype Block = Block(lang: string, content: seq<Line>)

  function Cost(b: Block): nat {
    if b.lang in IMPL_LANGS then |b.content| else ShellScriptLines(b.lang, b.content)
  }

  /** How `scan_body` updates its list state; unlike `body_lines` it does so
      before it looks for a fence. */
  function ListState(l: Line, inList: bool): bool {
    if l.blank then inList
    else if l.listMarker then true
    else if !l.leadingSpace && !l.indentedCode then false
    else inList
  }

  /** The number of lines before the first one that closes the fence. */
  function ContentLength(lines: seq<Line>, opener: Delim, inList: bool): (n: nat)
    ensures n <= |lines|
  {
    if lines == [] || Closes(opener, View(lines[0], inList)) then 0
    else 1 + ContentLength(lines[1..], opener, inList)
  }

  /** The fenced blocks of a text, a last unclosed one included. */
  function Blocks(lines: seq<Line>, inList: bool): seq<Block>
    decreases |lines|
  {
    if lines == [] then []
    else
      var listed := ListState(lines[0], inList);
      var v := View(lines[0], listed);
      if v.delim.None? then Blocks(lines[1..], listed)
      else BlocksInside(v.lang, [], lines[1..], v.delim.value, listed)
  }

  /** The same, starting inside a fence whose content so far is `content`. */
  function BlocksInside(lang: string, content: seq<Line>, lines: seq<Line>, opener: Delim, inList: bool): seq<Block>
    decreases |lines|, 1
  {
    var n := ContentLength(lines, opener, inList);
    [Block(lang, content + lines[..n])] + if n == |lines| then [] else Blocks(lines[n + 1..], inList)
  }

  function Total(blocks: seq<Block>): nat {
    if blocks == [] then 0 else Cost(blocks[0]) + Total(blocks[1..])
  }

  // ------------------------------------------------------------ the script

  method CountShell(lang: string, block: seq<Line>) returns (n: nat)
    ensures n == ShellScriptLines(lang, block)
  {
    if lang !in SHELL_LANGS { return 0; }
    var body: seq<Line> := [];
    for i := 0 to |block|
      invariant body == Effective(block[..i])
    {
      assert block[..i + 1][..i] == block[..i];
      if !block[i].blank { body := body + [block[i]]; }
    }
    assert block[..|block|] == block;
    n := if |body| > SHELL_MAX_LINES || exists l | l in body :: l.shellControl then |body| else 0;
  }

  /** What the rest of the scan will still add, given where it stands. */
  ghost function Pending(
    lines: seq<Line>, inFence: bool, opener: Delim, inList: bool, lang: string, content: seq<Line>): nat
  {
    if inFence then Total(BlocksInside(lang, content, lines, opener, inList)) else Total(Blocks(lines, inList))
  }

  /** The one-pass counter of `scan_body`: it counts lines of implementation
      languages at once and buffers shell lines until their block ends. */
  method ScanBody(lines: seq<Line>) returns (impl: nat)
    ensures impl == Total(Blocks(lines, false))
  {
    impl := 0;
    var inFence, opener, inList, lang := false, Delim('`', 0), false, "";
    var shellBuf: seq<Line> := [];
    ghost var settled, content := 0, [];
    for i := 0 to |lines|
      invariant settled + Pending(lines[i..], inFence, opener, inList, lang, content) == Total(Blocks(lines, false))
      invariant !inFence ==> impl == settled && lang == "" && shellBuf == []
      invariant inFence ==> impl == settled + if lang in IMPL_LANGS then |content| else 0
      invariant inFence ==> shellBuf == if lang in SHELL_LANGS && lang !in IMPL_LANGS then content else []
    {
      assert lines[i..][1..] == lines[i + 1..];
      var line := lines[i];
      if !inFence && !line.blank {
        if line.listMarker {
          inList := true;
        } else if !line.leadingSpace && !line.indentedCode {
          inList := false;
        }
      }
      var view := View(line, inList);
      if view.delim.Some? && (!inFence || Closes(opener, view)) {
        if !inFence {
          opener := view.delim.value;
          inFence, lang := true, view.lang;
          shellBuf := [];
          content := [];
        } else {
          CloseAddsUp(lang, content, lines[i..], opener, inList);
          EmptyShell(lang);
          settled := settled + Cost(Block(lang, content));
          var script := CountShell(lang, shellBuf);
          impl := impl + script;
          inFence, lang, shellBuf := false, "", [];
        }
        continue;
      }
      if inFence {
        InsideGoesOn(lang, content, lines[i..], opener, inList);
        content := content + [line];
        if lang in IMPL_LANGS {
          impl := impl + 1;
        } else if lang in SHELL_LANGS {
          shellBuf := shellBuf + [line];
        }
        continue;
      }
    }
    assert lines[|lines|..] == [];
    EmptyShell(lang);
    if inFence { LastBlock(lang, content, opener, inList); }
    var script := CountShell(lang, shellBuf);
    impl := impl + script;
  }

  // ---------------------------------------------------------------- lemmas

  lemma EmptyShell(lang: string)
    ensures ShellScriptLines(lang, []) == 0
  {
  }

  /** A closing line ends the block and hands over to what follows. */
  lemma CloseAddsUp(lang: string, content: seq<Line>, lines: seq<Line>, opener: Delim, inList: bool)
    requires lines != [] && Closes(opener, View(lines[0], inList))
    ensures Total(BlocksInside(lang, content, lines, opener, inList)) ==
            Cost(Block(lang, content)) + Total(Blocks(lines[1..], inList))
  {
    assert content + lines[..0] == content;
    var b, rest := Block(lang, content), Blocks(lines[1..], inList);
    assert BlocksInside(lang, content, lines, opener, inList) == [b] + rest;
    assert ([b] + rest)[1..] == rest;
  }

  /** Any other line becomes content. */
  lemma InsideGoesOn(lang: string, content: seq<Line>, lines: seq<Line>, opener: Delim, inList: bool)
    requires lines != [] && !Closes(opener, View(lines[0], inList))
    ensures BlocksInside(lang, content, lines, opener, inList) ==
            BlocksInside(lang, content + [lines[0]], lines[1..], opener, inList)
  {
    var n := ContentLength(lines[1..], opener, inList);
    assert ContentLength(lines, opener, inList) == n + 1;
    assert content + lines[..n + 1] == content + [lines[0]] + lines[1..][..n];
    if n + 1 < |lines| { assert lines[n + 2..] == lines[1..][n + 1..]; }
  }

  lemma LastBlock(lang: string, content: seq<Line>, opener: Delim, inList: bool)
    ensures Total(BlocksInside(lang, content, [], opener, inList)) == Cost(Block(lang, content))
  {
    var none: seq<Line> := [];
    assert content + none[..0] == content;
    var b := Block(lang, content);
    assert BlocksInside(lang, content, none, opener, inList) == [b];
    assert [b][1..] == [];
  }

  // ------------------------------------------------------------- what counts

  /** The non-blank lines of a block. */
  function NonBlank(block: seq<Line>): seq<Line> {
    if block == [] then [] else (if block[0].blank then [] else [block[0]]) + NonBlank(block[1..])
  }

  lemma {:induction false} EffectiveIsNonBlank(block: seq<Line>)
    ensures Effective(block) == NonBlank(block)
  {
    if block != [] {
      var n := |block| - 1;
      EffectiveIsNonBlank(block[..n]);
      assert block == block[..n] + [block[n]];
      NonBlankConcat(block[..n], [block[n]]);
      assert [block[n]][1..] == [];
    }
  }

  lemma {:induction false} NonBlankConcat(a: seq<Line>, b: seq<Line>)
    ensures NonBlank(a + b) == NonBlank(a) + NonBlank(b)
  {
    if a == [] {
      assert a + b == b;
    } else {
      assert (a + b)[1..] == a[1..] + b;
      NonBlankConcat(a[1..], b);
    }
  }

  /** What a block costs: every line of an implementation language; of a shell
      language the non-blank lines, once there are more than twelve of them or
      one of them controls the flow; nothing in any other language. */
  lemma CostExactly(b: Block)
    ensures
      var code := |NonBlank(b.content)|;
      if b.lang in ["cs", "csharp", "c#", "ts", "tsx", "typescript", "js", "jsx", "javascript", "rust", "rs",
                    "python", "py", "java", "go", "vue", "css", "scss", "sql"] then Cost(b) == |b.content|
      else if b.lang in ["bash", "sh", "shell", "zsh", "console", "shell-session"] then
        Cost(b) == if code >= 13 || (exists l | l in b.content :: !l.blank && l.shellControl) then code else 0
      else Cost(b) == 0
  {
    EffectiveIsNonBlank(b.content);
    NonBlankMembers(b.content);
    hide Effective;
    hide NonBlank;
  }

  lemma {:induction false} NonBlankMembers(block: seq<Line>)
    ensures forall l :: l in NonBlank(block) <==> l in block && !l.blank
  {
    if block != [] {
      NonBlankMembers(block[1..]);
      assert block == [block[0]] + block[1..];
    }
  }

  /** The list state behind a line: a marker begins a list, and it lasts until
      a non-blank line that is neither indented nor a marker. */
  lemma ListExactly(l: Line, inList: bool)
    ensures ListState(l, inList) <==>
      if l.blank then inList else l.listMarker || (inList && (l.leadingSpace || l.indentedCode))
  {
  }

  function ListAfter(lines: seq<Line>, inList: bool): bool {
    if lines == [] then inList else ListAfter(lines[1..], ListState(lines[0], inList))
  }

  /** No line is read as a fence, each in the list state it stands in. */
  predicate NoFence(lines: seq<Line>, inList: bool) {
    lines == [] || (View(lines[0], ListState(lines[0], inList)).delim.None?
                    && NoFence(lines[1..], ListState(lines[0], inList)))
  }

  /** Text before a fence holds no block, and neither does a text without one. */
  lemma {:induction false} TextHoldsNoBlock(text: seq<Line>, more: seq<Line>, inList: bool)
    requires NoFence(text, inList)
    ensures Blocks(text + more, inList) == Blocks(more, ListAfter(text, inList))
    ensures Blocks(text, inList) == []
  {
    if text == [] {
      assert text + more == more;
    } else {
      assert (text + more)[1..] == text[1..] + more;
      TextHoldsNoBlock(text[1..], more, ListState(text[0], inList));
    }
  }

  /** An opening line, lines that do not close it, and a closing line are one
      block; behind it the text goes on in the list state of the opener. */
  lemma BlockFirst(opener: Line, content: seq<Line>, closer: Line, more: seq<Line>, inList: bool)
    requires
      var listed := ListState(opener, inList);
      && View(opener, listed).delim.Some?
      && (forall l | l in content :: !Closes(View(opener, listed).delim.value, View(l, listed)))
      && Closes(View(opener, listed).delim.value, View(closer, listed))
    ensures
      var listed := ListState(opener, inList);
      Blocks([opener] + content + [closer] + more, inList)
      == [Block(View(opener, listed).lang, content)] + Blocks(more, listed)
  {
    var listed := ListState(opener, inList);
    var d, rest := View(opener, listed).delim.value, content + [closer] + more;
    assert [opener] + content + [closer] + more == [opener] + rest;
    assert ([opener] + rest)[1..] == rest;
    ContentOf(content, [closer] + more, d, listed);
    assert content + ([closer] + more) == rest;
    assert rest[..|content|] == content && rest[|content| + 1..] == more;
    assert [] + content == content;
  }

  lemma {:induction false} ContentOf(content: seq<Line>, more: seq<Line>, opener: Delim, inList: bool)
    requires forall l | l in content :: !Closes(opener, View(l, inList))
    requires more != [] ==> Closes(opener, View(more[0], inList))
    ensures ContentLength(content + more, opener, inList) == |content|
  {
    if content == [] {
      assert content + more == more;
    } else {
      assert content[0] in content && (content + more)[1..] == content[1..] + more;
      ContentOf(content[1..], more, opener, inList);
    }
  }

  /** A fence that is never closed is one block to the end of the text. */
  lemma UnclosedIsLast(opener: Line, content: seq<Line>, inList: bool)
    requires
      var listed := ListState(opener, inList);
      && View(opener, listed).delim.Some?
      && forall l | l in content :: !Closes(View(opener, listed).delim.value, View(l, listed))
    ensures
      Blocks([opener] + content, inList) == [Block(View(opener, ListState(opener, inList)).lang, content)]
  {
    var listed := ListState(opener, inList);
    assert ([opener] + content)[1..] == content && content + [] == content;
    ContentOf(content, [], View(opener, listed).delim.value, listed);
    assert content[..|content|] == content && [] + content == content;
  }
}
