/** XML as the server reads it: elements with resolved names, and the token stream of a decoder. */
module Xml {
  import opened Text

  datatype QName = QName(space: string, local: string)

  datatype Attr = Attr(name: QName, value: string)

  /** A parsed element: all its character data joined, then its children. */
  datatype Elem = Elem(name: QName, attrs: seq<Attr>, text: string, children: seq<Elem>)

  /** Decoder tokens; comments, processing instructions and directives are all OtherToken. */
  datatype Token = Start(name: QName, attrs: seq<Attr>) | CharData(text: string) | End(name: QName) | OtherToken

  /** The tokens of an element: its text comes before its children. */
  function Tokens(e: Elem): seq<Token>
    decreases e, 1
  {
    [Start(e.name, e.attrs)] + TextTokens(e.text) + TokensOfAll(e.children) + [End(e.name)]
  }

  function TextTokens(text: string): seq<Token> {
    if text == "" then [] else [CharData(text)]
  }

  function TokensOfAll(es: seq<Elem>): seq<Token>
    decreases es, 0
  {
    if es == [] then [] else Tokens(es[0]) + TokensOfAll(es[1..])
  }

  // ---------- what an indenting encoder may add ----------

  /**
   * A stream without what a reader of trimmed texts cannot see: blank character data and other
   * tokens are dropped, the remaining character data loses its outer white space.
   */
  function Clean(stream: seq<Token>): seq<Token> {
    if stream == [] then []
    else
      (match stream[0]
       case CharData(text) => TextTokens(TrimSpace(text))
       case OtherToken => []
       case token => [token])
      + Clean(stream[1..])
  }

  /** The streams that differ from each other only in indentation, comments and the like. */
  ghost predicate Padded(stream: seq<Token>, tokens: seq<Token>) {
    Clean(stream) == Clean(tokens)
  }

  function TrimTree(e: Elem): Elem
    decreases e, 1
  {
    Elem(e.name, e.attrs, TrimSpace(e.text), TrimAll(e.children))
  }

  function TrimAll(es: seq<Elem>): (r: seq<Elem>)
    ensures |r| == |es|
    decreases es, 0
  {
    if es == [] then [] else [TrimTree(es[0])] + TrimAll(es[1..])
  }

  predicate TrimmedTree(e: Elem)
    decreases e, 1
  {
    Trimmed(e.text) && TrimmedAll(e.children)
  }

  predicate TrimmedAll(es: seq<Elem>)
    decreases es, 0
  {
    es == [] || (TrimmedTree(es[0]) && TrimmedAll(es[1..]))
  }

  lemma {:induction false} CleanConcat(a: seq<Token>, b: seq<Token>)
    ensures Clean(a + b) == Clean(a) + Clean(b)
  {
    if a == [] {
      assert a + b == b;
    } else {
      assert (a + b)[1..] == a[1..] + b;
      CleanConcat(a[1..], b);
    }
  }

  lemma PaddedAround(before: seq<Token>, a: seq<Token>, b: seq<Token>, after: seq<Token>)
    requires Padded(a, b)
    ensures Padded(before + a + after, before + b + after)
  {
    CleanConcat(before + a, after);
    CleanConcat(before, a);
    CleanConcat(before + b, after);
    CleanConcat(before, b);
  }

  /** Indentation, line breaks and comments can go anywhere between tokens and around any text. */
  lemma PaddingIsInvisible(before: seq<Token>, w: string, text: string, v: string, after: seq<Token>)
    requires AllSpace(w) && AllSpace(v)
    ensures Padded(before + [CharData(w + text + v)] + after, before + [CharData(text)] + after)
    ensures Padded(before + [CharData(w)] + after, before + [] + after)
    ensures Padded(before + [OtherToken] + after, before + [] + after)
  {
    TrimSpacePadded(w, text, v);
    TrimSpaceBlank(w);
    PaddedAround(before, [CharData(w + text + v)], [CharData(text)], after);
    PaddedAround(before, [CharData(w)], [], after);
    PaddedAround(before, [OtherToken], [], after);
  }

  /** Cleaning the tokens of an element is trimming the texts of its tree. */
  lemma {:induction false} CleanTokens(e: Elem)
    ensures Clean(Tokens(e)) == Tokens(TrimTree(e))
    decreases e, 1
  {
    var start, text, inner, end := [Start(e.name, e.attrs)], TextTokens(e.text), TokensOfAll(e.children), [End(e.name)];
    CleanConcat(start + text + inner, end);
    CleanConcat(start + text, inner);
    CleanConcat(start, text);
    CleanTokensOfAll(e.children);
    assert end[1..] == [] && start[1..] == [];
    assert Clean(text) == TextTokens(TrimSpace(e.text)) by {
      TrimSpaceBlank("");
      assert e.text != "" ==> text[1..] == [];
    }
  }

  lemma {:induction false} CleanTokensOfAll(es: seq<Elem>)
    ensures Clean(TokensOfAll(es)) == TokensOfAll(TrimAll(es))
    decreases es, 0
  {
    if es != [] {
      CleanConcat(Tokens(es[0]), TokensOfAll(es[1..]));
      CleanTokens(es[0]);
      CleanTokensOfAll(es[1..]);
      assert TrimAll(es)[1..] == TrimAll(es[1..]);
    }
  }

  lemma {:induction false} TrimTreeOfTrimmed(e: Elem)
    requires TrimmedTree(e)
    ensures TrimTree(e) == e
    decreases e, 1
  {
    TrimSpaceFixpoints(e.text);
    TrimAllOfTrimmed(e.children);
  }

  lemma {:induction false} TrimAllOfTrimmed(es: seq<Elem>)
    requires TrimmedAll(es)
    ensures TrimAll(es) == es
    decreases es, 0
  {
    if es != [] {
      TrimTreeOfTrimmed(es[0]);
      TrimAllOfTrimmed(es[1..]);
    }
  }

  lemma {:induction false} TrimmedAt(es: seq<Elem>, i: nat)
    requires TrimmedAll(es) && i < |es|
    ensures TrimmedTree(es[i])
  {
    if i > 0 {
      TrimmedAt(es[1..], i - 1);
    }
  }

  lemma {:induction false} TrimmedFromEach(es: seq<Elem>)
    requires forall i :: 0 <= i < |es| ==> TrimmedTree(es[i])
    ensures TrimmedAll(es)
  {
    if es != [] {
      TrimmedFromEach(es[1..]);
    }
  }

  lemma {:induction false} TrimTreeTrims(e: Elem)
    ensures TrimmedTree(TrimTree(e))
    decreases e, 1
  {
    TrimSpaceFixpoints(e.text);
    TrimAllTrims(e.children);
  }

  lemma {:induction false} TrimAllTrims(es: seq<Elem>)
    ensures TrimmedAll(TrimAll(es))
    decreases es, 0
  {
    if es != [] {
      TrimTreeTrims(es[0]);
      TrimAllTrims(es[1..]);
      assert TrimAll(es)[1..] == TrimAll(es[1..]);
    }
  }
}
