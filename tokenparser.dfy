/**
 * tokenparser.py: the `Parser` that turns a token list into LaTeX. `dispatch`
 * walks the tokens, stores each token's value in `value` and calls the method
 * named by the lower-cased token kind; each handler rewrites `value` and
 * appends it to the output sink through `write`.
 */
module TokenParser {
  import opened Strings

  /** A token as the lexer hands it over: `(kind, value)`. */
  datatype Token = Token(kind: string, value: string)

  /** The five handler methods of `Parser`. */
  datatype Handler = Ellipses | Punct | Word | Number | Whitespace

  /**
   * What `exec('self.<name>()')` does for a lower-cased kind name: run a
   * handler; raise TypeError because the name is another member of the parser
   * that cannot be called without arguments (or at all); or raise
   * AttributeError, which `dispatch` catches and only logs.
   */
  datatype Kind = Handled(h: Handler) | NotCallable | NoHandler

  // ---------------------------------------------------------------------------
  // Kind names
  // ---------------------------------------------------------------------------

  function LowerChar(c: char): char
  {
    if 'A' <= c <= 'Z' then (c as int - 'A' as int + 'a' as int) as char else c
  }

  /** `str.lower` on ASCII letters. */
  function Lower(s: string): (r: string)
    ensures |r| == |s|
    decreases |s|
  {
    if s == [] then [] else [LowerChar(s[0])] + Lower(s[1..])
  }

  /** Lower-casing leaves no upper-case ASCII letter behind. */
  lemma {:induction false} LowerNoUpper(s: string, i: nat)
    requires i < |s|
    ensures !('A' <= Lower(s)[i] <= 'Z')
    decreases |s|
  {
    if i > 0 {
      LowerNoUpper(s[1..], i - 1);
    }
  }

  /** Lower-casing twice is lower-casing once. */
  lemma {:induction false} LowerIdempotent(s: string)
    ensures Lower(Lower(s)) == Lower(s)
    decreases |s|
  {
    if s != [] {
      LowerIdempotent(s[1..]);
      assert Lower(s)[1..] == Lower(s[1..]);
    }
  }

  /** The members of `Parser` other than the handlers: calling them with no argument raises TypeError. */
  const Members: seq<string> := ["__init__", "__class__", "dispatch", "write", "logger", "output", "value"]

  /** The method `dispatch` reaches for a token kind. */
  function KindOf(kind: string): Kind
  {
    var name := Lower(kind);
    if name == "ellipses" then Handled(Ellipses)
    else if name == "punct" then Handled(Punct)
    else if name == "word" then Handled(Word)
    else if name == "number" then Handled(Number)
    else if name == "whitespace" then Handled(Whitespace)
    else if name in Members then NotCallable
    else NoHandler
  }

  /** Kinds are matched without regard to case: a kind and its lower-cased form reach the same method. */
  lemma {:induction false} KindIgnoresCase(kind: string)
    ensures KindOf(Lower(kind)) == KindOf(kind)
  {
    LowerIdempotent(kind);
  }

  // ---------------------------------------------------------------------------
  // Handler texts
  // ---------------------------------------------------------------------------

  /** The punctuation values with a special meaning in LaTeX. */
  const PunctEscapes: seq<string> := ["#", "$", "%", "&", "~", "_", "^", "\\", "{", "}"]

  /** What `punct` writes: a listed value gets one backslash in front; anything else is written as is. */
  function PunctText(v: string): (r: string)
    ensures r == v || r == "\\" + v
    ensures r != v <==> v in PunctEscapes
  {
    if v in PunctEscapes then "\\" + v else v
  }

  /** Reads a written punctuation mark back: drops the backslash in front of an escaped one. */
  function PunctSource(r: string): string
  {
    if |r| == 2 && r[0] == '\\' && r[1..] in PunctEscapes then r[1..] else r
  }

  /** A single punctuation character is recovered from what `punct` writes for it. */
  lemma {:induction false} PunctRoundTrip(v: string)
    requires |v| == 1
    ensures PunctSource(PunctText(v)) == v
  {
    if v in PunctEscapes {
      assert ("\\" + v)[1..] == v;
    }
  }

  /** A single special character is written as a backslash followed by itself, and nothing else changes. */
  lemma {:induction false} PunctSpecial(c: char)
    ensures c in "#$%&~_^\\{}" ==> PunctText([c]) == ['\\', c]
    ensures c !in "#$%&~_^\\{}" ==> PunctText([c]) == [c]
  {
    var specials := "#$%&~_^\\{}";
    if c in specials {
      var k :| 0 <= k < |specials| && specials[k] == c;
      assert [c] == PunctEscapes[k];
    } else {
      assert forall k :: 0 <= k < |PunctEscapes| ==> PunctEscapes[k] == [specials[k]];
    }
  }

  /** The compose code written for an `é`. */
  const AcuteE: string := "\\'{e}"

  /** What `word` writes: every `é` replaced by its compose code. */
  function WordText(v: string): string
  {
    Replace(v, "é", AcuteE)
  }

  /** `word` maps each character on its own: an `é` to the compose code, every other character to itself. */
  lemma {:induction false} WordIsImage(v: string)
    ensures WordText(v) == Image(v, [('é', AcuteE)])
  {
    ReplaceCharIsImage(v, 'é', AcuteE);
  }

  /** No `é` is left in what `word` writes. */
  lemma {:induction false} WordNoAccent(v: string)
    ensures 'é' !in WordText(v)
  {
    var t: Table := [('é', AcuteE)];
    WordIsImage(v);
    forall i | 0 <= i < |v| ensures 'é' !in Lookup(t, v[i]) {
      if v[i] == 'é' {
        assert Lookup(t, v[i]) == AcuteE;
      } else {
        assert Lookup(t, v[i]) == [v[i]];
      }
    }
    if 'é' in Image(v, t) {
      ImageChars(v, t, 'é');
    }
  }

  /** A word without `é` is written unchanged. */
  lemma {:induction false} WordPlain(v: string)
    requires 'é' !in v
    ensures WordText(v) == v
  {
    WordIsImage(v);
    ImageIdentity(v, [('é', AcuteE)]);
  }

  /** What `whitespace` writes: a LaTeX line break for a value holding a line break, one space otherwise. */
  function WhitespaceText(v: string): (r: string)
    ensures r == " " || r == " \\\\\n"
    ensures '\n' in r <==> '\r' in v || '\n' in v
  {
    if '\r' in v || '\n' in v then " \\\\\n" else " "
  }

  /** What a handler writes for the value it is called with; the value becomes this text as well. */
  function HandlerText(h: Handler, v: string): string
  {
    match h
    case Ellipses => v
    case Punct => PunctText(v)
    case Word => WordText(v)
    case Number => v
    case Whitespace => WhitespaceText(v)
  }

  // ---------------------------------------------------------------------------
  // Dispatch as a value
  // ---------------------------------------------------------------------------

  /** What a run of `dispatch` leaves: the text written, the last `value` and whether it raised. */
  datatype Run = Run(text: string, value: string, outcome: Outcome<string>)

  /** `dispatch(tokens)` started with `value` in place. */
  function Dispatched(tokens: seq<Token>, value: string): (run: Run)
    ensures run.outcome == Pass || run.outcome == Fail("TypeError")
    decreases |tokens|
  {
    if tokens == [] then Run("", value, Pass)
    else
      var t := tokens[0];
      match KindOf(t.kind)
      case Handled(h) =>
        var w := HandlerText(h, t.value);
        var rest := Dispatched(tokens[1..], w);
        Run(w + rest.text, rest.value, rest.outcome)
      case NotCallable => Run("", t.value, Fail("TypeError"))
      case NoHandler => Dispatched(tokens[1..], t.value)
  }

  /** The text one token contributes when nothing raises. */
  function TokenText(t: Token): string
  {
    match KindOf(t.kind)
    case Handled(h) => HandlerText(h, t.value)
    case _ => ""
  }

  /** The handler outputs of all tokens, in order. */
  function Texts(tokens: seq<Token>): string
    decreases |tokens|
  {
    if tokens == [] then "" else TokenText(tokens[0]) + Texts(tokens[1..])
  }

  /** `dispatch` raises exactly when some token names a member that cannot be called without arguments. */
  lemma {:induction false} DispatchedFails(tokens: seq<Token>, value: string)
    ensures Dispatched(tokens, value).outcome.Fail?
            <==> exists i :: 0 <= i < |tokens| && KindOf(tokens[i].kind) == NotCallable
    decreases |tokens|
  {
    if tokens != [] {
      var t := tokens[0];
      var v := match KindOf(t.kind) case Handled(h) => HandlerText(h, t.value) case _ => t.value;
      DispatchedFails(tokens[1..], v);
      if exists i :: 0 <= i < |tokens[1..]| && KindOf(tokens[1..][i].kind) == NotCallable {
        var i :| 0 <= i < |tokens[1..]| && KindOf(tokens[1..][i].kind) == NotCallable;
        assert KindOf(tokens[i + 1].kind) == NotCallable;
      }
      if exists i :: 0 <= i < |tokens| && KindOf(tokens[i].kind) == NotCallable {
        var i :| 0 <= i < |tokens| && KindOf(tokens[i].kind) == NotCallable;
        if i > 0 {
          assert KindOf(tokens[1..][i - 1].kind) == NotCallable;
        }
      }
    }
  }

  /** When nothing raises, the output is the handler outputs of the tokens, in order. */
  lemma {:induction false} DispatchedTexts(tokens: seq<Token>, value: string)
    requires Dispatched(tokens, value).outcome.Pass?
    ensures Dispatched(tokens, value).text == Texts(tokens)
    decreases |tokens|
  {
    if tokens != [] {
      var t := tokens[0];
      var v := match KindOf(t.kind) case Handled(h) => HandlerText(h, t.value) case _ => t.value;
      DispatchedTexts(tokens[1..], v);
    }
  }

  /** Dispatching two lists one after the other writes what dispatching their concatenation writes. */
  lemma {:induction false} DispatchedConcat(a: seq<Token>, b: seq<Token>, value: string)
    ensures var ra := Dispatched(a, value);
            var rb := Dispatched(b, ra.value);
            Dispatched(a + b, value)
              == if ra.outcome.Pass? then Run(ra.text + rb.text, rb.value, rb.outcome) else ra
    decreases |a|
  {
    if a != [] {
      var t := a[0];
      assert (a + b)[0] == t;
      assert (a + b)[1..] == a[1..] + b;
      var v := match KindOf(t.kind) case Handled(h) => HandlerText(h, t.value) case _ => t.value;
      DispatchedConcat(a[1..], b, v);
      match KindOf(t.kind)
      case Handled(h) =>
        var w := HandlerText(h, t.value);
        var r1 := Dispatched(a[1..], w);
        if r1.outcome.Pass? {
          AppendAssoc(w, r1.text, Dispatched(b, r1.value).text);
        }
      case NotCallable =>
      case NoHandler =>
    } else {
      assert [] + b == b;
    }
  }

  /** Tokens with no handler write nothing: they are only logged. */
  lemma {:induction false} DispatchedSilent(tokens: seq<Token>, value: string)
    requires forall i :: 0 <= i < |tokens| ==> KindOf(tokens[i].kind) == NoHandler
    ensures Dispatched(tokens, value).text == "" && Dispatched(tokens, value).outcome == Pass
    decreases |tokens|
  {
    if tokens != [] {
      assert KindOf(tokens[0].kind) == NoHandler;
      DispatchedSilent(tokens[1..], tokens[0].value);
    }
  }

  // ---------------------------------------------------------------------------
  // Parser
  // ---------------------------------------------------------------------------

  class Parser {
    /** Everything written to the output sink so far. */
    var output: string
    /** The value of the token being handled. */
    var value: string

    constructor (value: string)
      ensures output == "" && this.value == value
    {
      output := "";
      this.value := value;
    }

    /** Parser.write: the text is appended; what was written before stays. */
    method Write(text: string)
      modifies this`output
      ensures output == old(output) + text
    {
      output := output + text;
    }

    /** Parser.ellipses: the value is written verbatim. */
    method HandleEllipses()
      modifies this`output
      ensures value == HandlerText(Ellipses, old(value))
      ensures output == old(output) + value
    {
      Write(value);
    }

    /** Parser.punct */
    method HandlePunct()
      modifies this`value, this`output
      ensures value == PunctText(old(value))
      ensures output == old(output) + value
    {
      if value in PunctEscapes {
        value := "\\" + value;
      }
      Write(value);
    }

    /** Parser.word: the replacement only runs when an `é` is present. */
    method HandleWord()
      modifies this`value, this`output
      ensures value == WordText(old(value))
      ensures output == old(output) + value
    {
      if 'é' in value {
        value := Replace(value, "é", AcuteE);
      } else {
        WordPlain(value);
      }
      Write(value);
    }

    /** Parser.number: the value is written verbatim. */
    method HandleNumber()
      modifies this`output
      ensures value == HandlerText(Number, old(value))
      ensures output == old(output) + value
    {
      Write(value);
    }

    /** Parser.whitespace */
    method HandleWhitespace()
      modifies this`value, this`output
      ensures value == WhitespaceText(old(value))
      ensures output == old(output) + value
    {
      if '\r' in value || '\n' in value {
        value := " \\\\\n";
      } else {
        value := " ";
      }
      Write(value);
    }

    /** The call `exec('self.<kind>()')` makes for a kind with a handler. */
    method Handle(h: Handler)
      modifies this`value, this`output
      ensures value == HandlerText(h, old(value))
      ensures output == old(output) + value
    {
      match h
      case Ellipses => HandleEllipses();
      case Punct => HandlePunct();
      case Word => HandleWord();
      case Number => HandleNumber();
      case Whitespace => HandleWhitespace();
    }

    /**
     * Parser.dispatch: the output grows by exactly what `Dispatched` says, in
     * token order; a member name that cannot be called stops the walk with TypeError.
     */
    method Dispatch(tokens: seq<Token>) returns (r: Outcome<string>)
      modifies this`value, this`output
      ensures var run := Dispatched(tokens, old(value));
              output == old(output) + run.text && value == run.value && r == run.outcome
    {
      ghost var whole := Dispatched(tokens, value);
      ghost var done := "";
      var i := 0;
      while i < |tokens|
        invariant 0 <= i <= |tokens|
        invariant output == old(output) + done
        invariant var rest := Dispatched(tokens[i..], value);
                  whole == Run(done + rest.text, rest.value, rest.outcome)
      {
        var t := tokens[i];
        assert tokens[i..][0] == t && tokens[i..][1..] == tokens[i + 1..];
        value := t.value;
        match KindOf(t.kind) {
          case Handled(h) =>
            Handle(h);
            AppendAssoc(done, value, Dispatched(tokens[i + 1..], value).text);
            done := done + value;
          case NotCallable =>
            assert done + "" == done;
            return Fail("TypeError");
          case NoHandler =>
        }
        i := i + 1;
      }
      assert done + "" == done;
      r := Pass;
    }
  }
}
