/** Closing the HTML tags a cut has left open. */
module TagRepair {
  import opened Basics

  /** A match of `<(/?)([a-zA-Z]+)\b[^>]*>`, its name in lower case. */
  datatype Tag = Tag(closing: bool, name: string)

  predicate IsLetter(c: char) { 'a' <= c <= 'z' || 'A' <= c <= 'Z' }

  /** `\w`, with every character beyond ASCII counted in. */
  predicate IsWord(c: char) { IsLetter(c) || '0' <= c <= '9' || c == '_' || c as int > 127 }

  function LowerChar(c: char): char {
    if 'A' <= c <= 'Z' then c - 'A' + 'a' else c
  }

  function Lower(s: string): (r: string)
    ensures |r| == |s|
    ensures forall i :: 0 <= i < |s| ==> r[i] as int == s[i] as int + if 'A' <= s[i] <= 'Z' then 32 else 0
  {
    seq(|s|, i requires 0 <= i < |s| => LowerChar(s[i]))
  }

  predicate IsVoid(name: string) { name == "br" }

  /** The end of the run of letters that starts at `i`. */
  function LettersEnd(s: string, i: nat): (e: nat)
    requires i <= |s|
    ensures i <= e <= |s| && forall k :: i <= k < e ==> IsLetter(s[k])
    ensures e < |s| ==> !IsLetter(s[e])
    decreases |s| - i
  {
    if i == |s| || !IsLetter(s[i]) then i else LettersEnd(s, i + 1)
  }

  function Find(s: string, c: char, i: nat): (r: Option<nat>)
    requires i <= |s|
    ensures r.Some? ==> i <= r.value < |s| && s[r.value] == c && forall k :: i <= k < r.value ==> s[k] != c
    ensures r.None? ==> forall k :: i <= k < |s| ==> s[k] != c
    decreases |s| - i
  {
    if i == |s| then None else if s[i] == c then Some(i) else Find(s, c, i + 1)
  }

  /** Where the name of a tag at the head of `s` starts. */
  function NameStart(s: string): (i: nat)
    requires s != ""
    ensures i <= |s|
  {
    if |s| > 1 && s[1] == '/' then 2 else 1
  }

  /** The match that starts at the head of `s`, with its length. */
  function TagAt(s: string): (r: Option<(Tag, nat)>)
    ensures r.Some? ==> 0 < r.value.1 <= |s|
  {
    if s == "" || s[0] != '<' then None
    else
      var a := NameStart(s);
      var b := LettersEnd(s, a);
      if b == a || (b < |s| && IsWord(s[b])) then None
      else
        match Find(s, '>', b)
        case None => None
        case Some(e) => Some((Tag(a == 2, Lower(s[a..b])), e + 1))
  }

  /** `finditer` */
  function Tags(s: string): seq<Tag>
    decreases |s|
  {
    if s == "" then []
    else
      match TagAt(s)
      case Some((tag, n)) => [tag] + Tags(s[n..])
      case None => Tags(s[1..])
  }

  /** `rfind` */
  function Last(s: string, c: char): (i: int)
    ensures -1 <= i < |s|
    ensures i >= 0 ==> s[i] == c
    ensures forall k :: i < k < |s| ==> s[k] != c
  {
    if s == "" then -1 else if s[|s| - 1] == c then |s| - 1 else Last(s[..|s| - 1], c)
  }

  /** `s` less a last tag that is cut off. */
  function WithoutHalfTag(s: string): (r: string)
    ensures r <= s
    ensures r != s ==> s[|r|] == '<' && forall k :: |r| < k < |s| ==> s[k] != '<' && s[k] != '>'
    ensures r == s ==> forall k :: 0 <= k < |s| && s[k] == '<' ==> exists j :: k < j < |s| && s[j] == '>'
  {
    if Last(s, '<') > Last(s, '>') then s[..Last(s, '<')] else s
  }

  function LastIndex(stack: seq<string>, name: string): (i: nat)
    requires name in stack
    ensures i < |stack| && stack[i] == name && forall k :: i < k < |stack| ==> stack[k] != name
  {
    if stack[|stack| - 1] == name then |stack| - 1
    else
      assert name in stack[..|stack| - 1];
      LastIndex(stack[..|stack| - 1], name)
  }

  function Apply(tag: Tag, stack: seq<string>): seq<string> {
    if IsVoid(tag.name) then stack
    else if !tag.closing then stack + [tag.name]
    else if tag.name in stack then stack[..LastIndex(stack, tag.name)]
    else stack
  }

  function OpenAfter(tags: seq<Tag>, stack: seq<string>): seq<string>
    decreases |tags|
  {
    if tags == [] then stack else OpenAfter(tags[1..], Apply(tags[0], stack))
  }

  /** The closing tags for a stack, innermost first. */
  function Closers(stack: seq<string>): string {
    if stack == [] then "" else "</" + stack[|stack| - 1] + ">" + Closers(stack[..|stack| - 1])
  }

  function Repaired(s: string): string { WithoutHalfTag(s) + Closers(OpenAfter(Tags(WithoutHalfTag(s)), [])) }

  method PopThrough(stack: seq<string>, name: string) returns (rest: seq<string>)
    requires name in stack
    ensures rest == stack[..LastIndex(stack, name)]
  {
    rest := stack;
    var found := false;
    while rest != [] && !found
      invariant rest <= stack
      invariant !found ==> LastIndex(stack, name) < |rest|
      invariant found ==> rest == stack[..LastIndex(stack, name)]
      decreases |rest|, !found
    {
      found := rest[|rest| - 1] == name;
      rest := rest[..|rest| - 1];
    }
  }

  lemma OpenAfterAppend(tags: seq<Tag>, tag: Tag, stack: seq<string>)
    ensures OpenAfter(tags + [tag], stack) == Apply(tag, OpenAfter(tags, stack))
    decreases |tags|
  {
    if tags != [] {
      assert (tags + [tag])[1..] == tags[1..] + [tag];
      OpenAfterAppend(tags[1..], tag, Apply(tags[0], stack));
    } else {
      assert tags + [tag] == [tag];
    }
  }

  /** The first loop: what the tags leave open. */
  method OpenTags(tags: seq<Tag>) returns (stack: seq<string>)
    ensures stack == OpenAfter(tags, [])
  {
    stack := [];
    for i := 0 to |tags|
      invariant stack == OpenAfter(tags[..i], [])
    {
      OpenAfterAppend(tags[..i], tags[i], []);
      assert tags[..i + 1] == tags[..i] + [tags[i]];
      var name := tags[i].name;
      if IsVoid(name) {
        continue;
      }
      if !tags[i].closing {
        stack := stack + [name];
      } else if name in stack {
        stack := PopThrough(stack, name);
      }
    }
    assert tags[..|tags|] == tags;
  }

  /** `_close_open_tags` */
  method CloseOpenTags(s: string) returns (r: string)
    ensures r == Repaired(s)
  {
    var fragment := s;
    var lastOpen := Last(fragment, '<');
    if lastOpen > Last(fragment, '>') {
      fragment := fragment[..lastOpen];
    }
    assert fragment == WithoutHalfTag(s);
    var stack := OpenTags(Tags(fragment));
    r := AddClosers(fragment, stack);
  }

  /** The final join over `reversed(stack)`. */
  method AddClosers(fragment: string, open: seq<string>) returns (r: string)
    ensures r == fragment + Closers(open)
  {
    r := fragment;
    var stack := open;
    while stack != []
      invariant r + Closers(stack) == fragment + Closers(open)
      decreases |stack|
    {
      r := r + "</" + stack[|stack| - 1] + ">";
      stack := stack[..|stack| - 1];
    }
  }

  // ---------------------------------------------------------------- scanning a concatenation

  /** Every `<` is followed by a `>`. */
  ghost predicate Tidy(s: string) { forall i :: 0 <= i < |s| && s[i] == '<' ==> Find(s, '>', i).Some? }

  lemma TidySuffix(s: string, n: nat)
    requires Tidy(s) && n <= |s|
    ensures Tidy(s[n..])
  {
    forall i | 0 <= i < |s[n..]| && s[n..][i] == '<'
      ensures Find(s[n..], '>', i).Some?
    {
      assert s[n + i] == '<';
      var e := Find(s, '>', n + i).value;
      assert s[n..][e - n] == '>';
    }
  }

  lemma SameFirst(a: string, b: string, c: char, i: nat)
    requires i <= |a| && Find(a, c, i).Some?
    ensures Find(a + b, c, i) == Find(a, c, i)
  {
    var x := Find(a, c, i).value;
    assert (a + b)[x] == c;
    var y := Find(a + b, c, i);
    assert y.Some?;
    assert y.value <= x;
  }

  lemma SameLetters(a: string, b: string, i: nat)
    requires i <= |a| && LettersEnd(a, i) < |a|
    ensures LettersEnd(a + b, i) == LettersEnd(a, i)
    decreases |a| - i
  {
    if i < |a| && IsLetter(a[i]) {
      SameLetters(a, b, i + 1);
    }
  }

  lemma SameTagAt(a: string, b: string)
    requires a != "" && Tidy(a)
    ensures TagAt(a + b) == TagAt(a)
  {
    if a[0] == '<' {
      var e := Find(a, '>', 0).value;
      var start := NameStart(a);
      assert NameStart(a + b) == start;
      assert start <= e;
      assert LettersEnd(a, start) <= e;
      SameLetters(a, b, start);
      var stop := LettersEnd(a, start);
      assert (a + b)[start..stop] == a[start..stop];
      assert Find(a, '>', stop).Some?;
      SameFirst(a, b, '>', stop);
    }
  }

  /** No match reaches across the end of a tidy string. */
  lemma {:induction false} TagsConcat(a: string, b: string)
    requires Tidy(a)
    ensures Tags(a + b) == Tags(a) + Tags(b)
    decreases |a|
  {
    if a == "" {
      assert a + b == b;
    } else {
      SameTagAt(a, b);
      var n := if TagAt(a).Some? then TagAt(a).value.1 else 1;
      TidySuffix(a, n);
      assert (a + b)[n..] == a[n..] + b;
      TagsConcat(a[n..], b);
    }
  }

  // ---------------------------------------------------------------- documents

  datatype Token =
    | Text(text: string)
    | Mark(closing: bool, name: string, attributes: string)

  predicate Plain(s: string) { forall i :: 0 <= i < |s| ==> s[i] != '<' && s[i] != '>' }

  predicate Alphabetic(s: string) { s != "" && forall i :: 0 <= i < |s| ==> IsLetter(s[i]) }

  predicate WellFormed(t: Token) {
    match t
    case Text(text) => Plain(text)
    case Mark(_, name, attributes) =>
      Alphabetic(name) && Plain(attributes) && (attributes != "" ==> !IsWord(attributes[0]))
  }

  function Head(t: Token): string
    requires t.Mark?
  {
    (if t.closing then "</" else "<") + t.name
  }

  function Spell(t: Token): string {
    match t
    case Text(text) => text
    case Mark(_, _, attributes) => Head(t) + attributes + ">"
  }

  function Render(tokens: seq<Token>): string {
    if tokens == [] then "" else Spell(tokens[0]) + Render(tokens[1..])
  }

  predicate AllWellFormed(tokens: seq<Token>) { forall i :: 0 <= i < |tokens| ==> WellFormed(tokens[i]) }

  /** The elements open after a token; None when a closing tag does not match the innermost one. */
  function Nest(t: Token, stack: seq<string>): Option<seq<string>> {
    if t.Text? || Lower(t.name) == "br" then Some(stack)
    else if !t.closing then Some(stack + [Lower(t.name)])
    else if stack != [] && stack[|stack| - 1] == Lower(t.name) then Some(stack[..|stack| - 1])
    else None
  }

  function NestAll(tokens: seq<Token>, stack: seq<string>): Option<seq<string>> {
    if tokens == [] then Some(stack)
    else
      match Nest(tokens[0], stack)
      case None => None
      case Some(next) => NestAll(tokens[1..], next)
  }

  ghost predicate WellNested(s: string) {
    exists tokens :: AllWellFormed(tokens) && Render(tokens) == s && NestAll(tokens, []) == Some([])
  }

  function TagsOf(tokens: seq<Token>): seq<Tag> {
    if tokens == [] then []
    else (if tokens[0].Text? then [] else [Tag(tokens[0].closing, Lower(tokens[0].name))]) + TagsOf(tokens[1..])
  }

  lemma {:induction false} PlainHasNoTags(s: string)
    requires Plain(s)
    ensures Tags(s) == []
    decreases |s|
  {
    if s != "" {
      PlainHasNoTags(s[1..]);
    }
  }

  lemma LettersOfName(s: string, a: nat, b: nat)
    requires a <= b < |s| && (forall k :: a <= k < b ==> IsLetter(s[k])) && !IsLetter(s[b])
    ensures LettersEnd(s, a) == b
  {
  }

  /** The parts of a spelled tag: `<` or `</`, the name, the attributes, `>`. */
  lemma SpelledParts(t: Token)
    requires WellFormed(t) && t.Mark?
    ensures var s := Spell(t);
            var a := |Head(t)| - |t.name|;
            && |s| == |Head(t)| + |t.attributes| + 1 && s[0] == '<' && s[|s| - 1] == '>'
            && NameStart(s) == a == (if t.closing then 2 else 1)
            && s[a..|Head(t)|] == t.name && s[|Head(t)|..] == t.attributes + ">"
  {
    var s := Spell(t);
    assert s == Head(t) + (t.attributes + ">");
    assert s[0] == Head(t)[0] && s[1] == Head(t)[1];
  }

  lemma SpelledName(t: Token)
    requires WellFormed(t) && t.Mark?
    ensures var s := Spell(t);
            |Head(t)| < |s| && LettersEnd(s, NameStart(s)) == |Head(t)| && !IsWord(s[|Head(t)|])
  {
    SpelledParts(t);
    var s := Spell(t);
    var a, b := NameStart(s), |Head(t)|;
    forall k | a <= k < b
      ensures IsLetter(s[k])
    {
      assert s[k] == s[a..b][k - a];
    }
    assert s[b] == s[b..][0];
    LettersOfName(s, a, b);
  }

  lemma SpelledEnd(t: Token)
    requires WellFormed(t) && t.Mark?
    ensures |Head(t)| < |Spell(t)| && Find(Spell(t), '>', |Head(t)|) == Some(|Spell(t)| - 1)
  {
    SpelledParts(t);
    var s := Spell(t);
    forall k | |Head(t)| <= k < |s| - 1
      ensures s[k] != '>'
    {
      assert s[k] == s[|Head(t)|..][k - |Head(t)|];
    }
    assert s[|s| - 1] == '>';
  }

  lemma SpelledTag(t: Token)
    requires WellFormed(t) && t.Mark?
    ensures TagAt(Spell(t)) == Some((Tag(t.closing, Lower(t.name)), |Spell(t)|))
  {
    SpelledParts(t);
    SpelledName(t);
    SpelledEnd(t);
  }

  lemma MarkHasOneTag(t: Token)
    requires WellFormed(t) && t.Mark?
    ensures Tags(Spell(t)) == [Tag(t.closing, Lower(t.name))]
  {
    SpelledTag(t);
    var s := Spell(t);
    assert s[|s|..] == "";
  }

  lemma SpellIsTidy(t: Token)
    requires WellFormed(t)
    ensures Tidy(Spell(t))
  {
    if t.Mark? {
      var s := Spell(t);
      assert s[|s| - 1] == '>';
    }
  }

  /** The scan finds exactly the tags of a document. */
  lemma {:induction false} ScanFindsTags(tokens: seq<Token>)
    requires AllWellFormed(tokens)
    ensures Tags(Render(tokens)) == TagsOf(tokens)
    decreases |tokens|
  {
    if tokens != [] {
      SpellIsTidy(tokens[0]);
      TagsConcat(Spell(tokens[0]), Render(tokens[1..]));
      if tokens[0].Mark? {
        MarkHasOneTag(tokens[0]);
      } else {
        PlainHasNoTags(tokens[0].text);
      }
      ScanFindsTags(tokens[1..]);
    }
  }

  /** On nested tokens the repair's stack holds the open elements. */
  lemma {:induction false} StackIsNesting(tokens: seq<Token>, stack: seq<string>)
    requires NestAll(tokens, stack).Some?
    ensures OpenAfter(TagsOf(tokens), stack) == NestAll(tokens, stack).value
    decreases |tokens|
  {
    if tokens != [] {
      var next := Nest(tokens[0], stack).value;
      StackIsNesting(tokens[1..], next);
      if tokens[0].Mark? {
        assert TagsOf(tokens)[1..] == TagsOf(tokens[1..]);
        assert Apply(TagsOf(tokens)[0], stack) == next;
      } else {
        assert TagsOf(tokens) == TagsOf(tokens[1..]);
      }
    }
  }

  // ---------------------------------------------------------------- prefixes

  lemma {:induction false} RenderConcat(a: seq<Token>, b: seq<Token>)
    ensures Render(a + b) == Render(a) + Render(b)
    decreases |a|
  {
    if a == [] {
      assert a + b == b;
    } else {
      assert (a + b)[1..] == a[1..] + b;
      RenderConcat(a[1..], b);
    }
  }

  lemma {:induction false} NestConcat(a: seq<Token>, b: seq<Token>, stack: seq<string>)
    requires NestAll(a, stack).Some?
    ensures NestAll(a + b, stack) == NestAll(b, NestAll(a, stack).value)
    decreases |a|
  {
    if a == [] {
      assert a + b == b;
    } else {
      assert (a + b)[1..] == a[1..] + b;
      NestConcat(a[1..], b, Nest(a[0], stack).value);
    }
  }

  /** What a cut inside one token leaves. */
  lemma CutToken(t: Token, n: nat, stack: seq<string>) returns (kept: seq<Token>, half: string)
    requires WellFormed(t) && n < |Spell(t)|
    ensures AllWellFormed(kept) && NestAll(kept, stack).Some?
    ensures Spell(t)[..n] == Render(kept) + half
    ensures half != "" ==> half[0] == '<' && Plain(half[1..])
  {
    if t.Text? {
      kept, half := [Text(t.text[..n])], "";
      assert kept[1..] == [];
      assert Render(kept) == t.text[..n];
    } else {
      kept, half := [], Spell(t)[..n];
      MarkInside(t);
    }
  }

  lemma CutFurther(first: string, rest: string, n: nat)
    requires n <= |first| + |rest|
    ensures n < |first| ==> (first + rest)[..n] == first[..n]
    ensures n >= |first| ==> (first + rest)[..n] == first + rest[..n - |first|]
  {
  }

  /** `kept` and `half` are what the first `n` characters of the document leave. */
  ghost predicate IsCut(tokens: seq<Token>, n: nat, stack: seq<string>, kept: seq<Token>, half: string) {
    && AllWellFormed(kept) && NestAll(kept, stack).Some?
    && n <= |Render(tokens)| && Render(tokens)[..n] == Render(kept) + half
    && (half != "" ==> half[0] == '<' && Plain(half[1..]))
  }

  lemma CutStrings(first: string, rest: string, n: nat, kept: string, half: string)
    requires |first| <= n <= |first| + |rest| && rest[..n - |first|] == kept + half
    ensures (first + rest)[..n] == (first + kept) + half
  {
    CutFurther(first, rest, n);
    assert first + (kept + half) == (first + kept) + half;
  }

  lemma OneMoreToken(t: Token, rest: seq<Token>, stack: seq<string>)
    requires WellFormed(t) && Nest(t, stack).Some? && AllWellFormed(rest) && NestAll(rest, Nest(t, stack).value).Some?
    ensures AllWellFormed([t] + rest) && NestAll([t] + rest, stack).Some?
    ensures Render([t] + rest) == Spell(t) + Render(rest)
  {
    assert ([t] + rest)[1..] == rest;
  }

  lemma CutLater(tokens: seq<Token>, n: nat, stack: seq<string>, rest: seq<Token>, half: string)
    requires tokens != [] && WellFormed(tokens[0]) && Nest(tokens[0], stack).Some?
    requires |Spell(tokens[0])| <= n <= |Render(tokens)|
    requires IsCut(tokens[1..], n - |Spell(tokens[0])|, Nest(tokens[0], stack).value, rest, half)
    ensures IsCut(tokens, n, stack, [tokens[0]] + rest, half)
  {
    OneMoreToken(tokens[0], rest, stack);
    CutStrings(Spell(tokens[0]), Render(tokens[1..]), n, Render(rest), half);
  }

  /** The first tokens of a document and what is left of the token the cut went through. */
  lemma {:induction false} CutTokens(tokens: seq<Token>, n: nat, stack: seq<string>)
      returns (kept: seq<Token>, half: string)
    requires AllWellFormed(tokens) && n <= |Render(tokens)| && NestAll(tokens, stack).Some?
    ensures IsCut(tokens, n, stack, kept, half)
    decreases |tokens|
  {
    if tokens == [] {
      return [], "";
    }
    var first := Spell(tokens[0]);
    if n < |first| {
      CutFurther(first, Render(tokens[1..]), n);
      kept, half := CutToken(tokens[0], n, stack);
    } else {
      var rest;
      rest, half := CutTokens(tokens[1..], n - |first|, Nest(tokens[0], stack).value);
      CutLater(tokens, n, stack, rest, half);
      kept := [tokens[0]] + rest;
    }
  }

  /** Between its first and last character a tag has no angle brackets. */
  lemma MarkInside(t: Token)
    requires WellFormed(t) && t.Mark?
    ensures var s := Spell(t); |s| > 1 && s[0] == '<' && s[|s| - 1] == '>' && Plain(s[1..|s| - 1])
  {
    var s := Spell(t);
    var inside := (if t.closing then "/" else "") + t.name + t.attributes;
    assert s == "<" + inside + ">";
    assert s[1..|s| - 1] == inside;
  }

  /** A document has nothing cut in half. */
  lemma {:induction false} RenderIsWhole(tokens: seq<Token>)
    requires AllWellFormed(tokens)
    ensures Last(Render(tokens), '<') <= Last(Render(tokens), '>')
    decreases |tokens|
  {
    if tokens != [] {
      RenderIsWhole(tokens[1..]);
      LastOfConcat(Spell(tokens[0]), Render(tokens[1..]), '<');
      LastOfConcat(Spell(tokens[0]), Render(tokens[1..]), '>');
      if tokens[0].Mark? {
        MarkInside(tokens[0]);
      }
    }
  }

  lemma LastOfConcat(a: string, b: string, c: char)
    ensures Last(a + b, c) == if Last(b, c) >= 0 then |a| + Last(b, c) else Last(a, c)
  {
    var l := Last(a + b, c);
    if Last(b, c) >= 0 {
      assert (a + b)[|a| + Last(b, c)] == c;
    } else if Last(a, c) >= 0 {
      assert (a + b)[Last(a, c)] == c;
    }
    if l >= |a| {
      assert b[l - |a|] == c;
    } else if l >= 0 {
      assert a[l] == c;
    }
  }

  lemma HalfTagGoes(whole: string, half: string)
    requires Last(whole, '<') <= Last(whole, '>')
    requires half != "" ==> half[0] == '<' && Plain(half[1..])
    ensures WithoutHalfTag(whole + half) == whole
  {
    LastOfConcat(whole, half, '<');
    LastOfConcat(whole, half, '>');
    if half == "" {
      assert whole + half == whole;
    } else {
      forall k | 0 <= k < |half|
        ensures half[k] != '>' && (k > 0 ==> half[k] != '<')
      {
        assert k > 0 ==> half[k] == half[1..][k - 1];
      }
      assert (whole + half)[..|whole|] == whole;
    }
  }

  function ClosingTokens(stack: seq<string>): seq<Token> {
    if stack == [] then [] else [Mark(true, stack[|stack| - 1], "")] + ClosingTokens(stack[..|stack| - 1])
  }

  predicate PlainNames(stack: seq<string>) {
    forall i :: 0 <= i < |stack| ==> Alphabetic(stack[i]) && Lower(stack[i]) == stack[i] && !IsVoid(stack[i])
  }

  lemma {:induction false} ClosersClose(stack: seq<string>)
    requires PlainNames(stack)
    ensures AllWellFormed(ClosingTokens(stack)) && Render(ClosingTokens(stack)) == Closers(stack)
    ensures NestAll(ClosingTokens(stack), stack) == Some([])
    decreases |stack|
  {
    if stack != [] {
      var tokens := ClosingTokens(stack);
      assert tokens[1..] == ClosingTokens(stack[..|stack| - 1]);
      ClosersClose(stack[..|stack| - 1]);
      var top := tokens[0];
      assert Spell(top) == "</" + stack[|stack| - 1] + ">";
    }
  }

  lemma LowerNames(name: string)
    requires Alphabetic(name)
    ensures Alphabetic(Lower(name)) && Lower(Lower(name)) == Lower(name)
  {
  }

  lemma {:induction false} NestKeepsPlainNames(tokens: seq<Token>, stack: seq<string>)
    requires AllWellFormed(tokens) && PlainNames(stack) && NestAll(tokens, stack).Some?
    ensures PlainNames(NestAll(tokens, stack).value)
    decreases |tokens|
  {
    if tokens != [] {
      if tokens[0].Mark? {
        LowerNames(tokens[0].name);
      }
      NestKeepsPlainNames(tokens[1..], Nest(tokens[0], stack).value);
    }
  }

  /** Any prefix of a well-nested document is repaired to a well-nested document that extends the prefix less its
      half-cut tag; what is added are the closing tags of the elements the prefix leaves open. */
  lemma PrefixesAreRepaired(document: seq<Token>, n: nat)
    requires AllWellFormed(document) && NestAll(document, []) == Some([]) && n <= |Render(document)|
    ensures var prefix := Render(document)[..n];
            WellNested(Repaired(prefix)) && WithoutHalfTag(prefix) <= Repaired(prefix)
  {
    var kept, half := CutTokens(document, n, []);
    RenderIsWhole(kept);
    HalfTagGoes(Render(kept), half);
    ScanFindsTags(kept);
    StackIsNesting(kept, []);
    var stack := NestAll(kept, []).value;
    NestKeepsPlainNames(kept, []);
    ClosersClose(stack);
    RenderConcat(kept, ClosingTokens(stack));
    NestConcat(kept, ClosingTokens(stack), []);
    var whole := kept + ClosingTokens(stack);
    assert Render(whole) == Repaired(Render(document)[..n]);
    assert AllWellFormed(whole);
  }

  /** A well-nested document is left as it is. */
  lemma WellNestedIsKept(s: string)
    requires WellNested(s)
    ensures Repaired(s) == s
  {
    var tokens :| AllWellFormed(tokens) && Render(tokens) == s && NestAll(tokens, []) == Some([]);
    RenderIsWhole(tokens);
    ScanFindsTags(tokens);
    StackIsNesting(tokens, []);
  }
}
