/**
 * The example-prompt panel: a fixed table of ten prompts, the search filter
 * over it (a case-insensitive `includes` on the title or the prompt text) and
 * the two buttons on each shown card, "copy" and "use this prompt".
 */
module PromptExamples {

  import opened Wrappers
  import opened Notify
  import opened JsString

  /** One entry of the table. */
  datatype Example = Example(id: nat, title: string, prompt: string)

  /** The ten built-in examples, in display order. */
  const ExamplePrompts: seq<Example> := [
    Example(1, "Atendimento ao Cliente",
      "Você é um agente de atendimento ao cliente para a Chatify. Responda de forma cordial e prestativa."),
    Example(2, "Suporte Técnico",
      "Você é um especialista técnico que ajuda usuários a resolver problemas com a plataforma Chatify."),
    Example(3, "Vendas",
      "Você é um consultor de vendas da Chatify. Forneça informações sobre nossos planos e ajude o cliente a escolher o melhor para suas necessidades."),
    Example(4, "FAQ Bot",
      "Você é um bot de FAQ que responde perguntas frequentes sobre a plataforma Chatify com respostas curtas e diretas."),
    Example(5, "Assistente de Onboarding",
      "Você é um assistente de onboarding que guia novos usuários pelos primeiros passos na plataforma Chatify."),
    Example(6, "Assistente de Marketing",
      "Você é um especialista em marketing digital que oferece dicas e estratégias para promover negócios usando o Chatify."),
    Example(7, "Especialista em Integração",
      "Você é um especialista técnico em integrações do Chatify com outras plataformas como CRMs e ERPs."),
    Example(8, "Agente de Retenção",
      "Você é um agente de retenção do Chatify. Seu objetivo é entender por que o cliente quer cancelar e oferecer soluções para manter o cliente."),
    Example(9, "Assistente de Criação de Conteúdo",
      "Você é um assistente que ajuda a criar conteúdo engajante para chatbots no Chatify."),
    Example(10, "Consultor de IA",
      "Você é um consultor especializado em inteligência artificial, explicando como a IA do Chatify funciona de maneira acessível.")
  ]

  /** The filter's test: the lowered title or the lowered prompt includes the lowered term. */
  predicate Matches(e: Example, term: string) {
    Includes(ToLower(e.title), ToLower(term)) || Includes(ToLower(e.prompt), ToLower(term))
  }

  /** `xs` can be obtained from `ys` by deleting entries, keeping the order of the rest. */
  predicate SubsequenceOf<T(==)>(xs: seq<T>, ys: seq<T>)
    decreases |ys|
  {
    xs == [] || (ys != [] && ((xs[0] == ys[0] && SubsequenceOf(xs[1..], ys[1..])) || SubsequenceOf(xs, ys[1..])))
  }

  /** Ids strictly increase along `xs`, so in particular they are distinct. */
  predicate IdsAscending(xs: seq<Example>) {
    forall i, j :: 0 <= i < j < |xs| ==> xs[i].id < xs[j].id
  }

  /** `Array.prototype.filter` with `Matches`: the matching entries of `xs`, in their order. */
  function Filter(xs: seq<Example>, term: string): (r: seq<Example>)
    ensures |r| <= |xs|
    ensures forall e :: e in r <==> e in xs && Matches(e, term)
    ensures SubsequenceOf(r, xs)
  {
    if xs == [] then []
    else
      var rest := Filter(xs[1..], term);
      if Matches(xs[0], term) then [xs[0]] + rest else rest
  }

  /** A matching entry is kept as many times as it occurs, any other entry never. */
  lemma {:induction false} FilterCounts(xs: seq<Example>, term: string)
    ensures forall e :: multiset(Filter(xs, term))[e] == if Matches(e, term) then multiset(xs)[e] else 0
    decreases |xs|
  {
    if xs != [] {
      FilterCounts(xs[1..], term);
      assert xs == [xs[0]] + xs[1..];
    }
  }

  /** The list the panel shows for the current search term. */
  function FilteredPrompts(term: string): (r: seq<Example>)
    ensures |r| <= |ExamplePrompts|
    ensures forall e :: e in r <==> e in ExamplePrompts && Matches(e, term)
  {
    Filter(ExamplePrompts, term)
  }

  /** The table holds ten entries with ids 1 to 10, in order. */
  lemma TableIds()
    ensures |ExamplePrompts| == 10
    ensures forall i :: 0 <= i < |ExamplePrompts| ==> ExamplePrompts[i].id == i + 1
  {
  }

  /** Every entry of a subsequence is an entry of the sequence it was taken from. */
  lemma {:induction false} SubsequenceMembers<T>(xs: seq<T>, ys: seq<T>)
    requires SubsequenceOf(xs, ys)
    ensures forall x :: x in xs ==> x in ys
    decreases |ys|
  {
    if xs != [] {
      if xs[0] == ys[0] && SubsequenceOf(xs[1..], ys[1..]) {
        SubsequenceMembers(xs[1..], ys[1..]);
        forall x | x in xs ensures x in ys {
          if x != xs[0] {
            assert x in xs[1..];
            assert x in ys[1..];
          }
        }
      } else {
        SubsequenceMembers(xs, ys[1..]);
        forall x | x in xs ensures x in ys {
          assert x in ys[1..];
        }
      }
    }
  }

  /** Deleting entries keeps the ids in ascending order. */
  lemma {:induction false} SubsequenceKeepsIdsAscending(xs: seq<Example>, ys: seq<Example>)
    requires SubsequenceOf(xs, ys) && IdsAscending(ys)
    ensures IdsAscending(xs)
    decreases |ys|
  {
    if xs != [] {
      assert IdsAscending(ys[1..]);
      if xs[0] == ys[0] && SubsequenceOf(xs[1..], ys[1..]) {
        SubsequenceKeepsIdsAscending(xs[1..], ys[1..]);
        SubsequenceMembers(xs[1..], ys[1..]);
        forall j | 0 < j < |xs| ensures xs[0].id < xs[j].id {
          assert xs[j] in xs[1..];
          var k :| 0 <= k < |ys[1..]| && ys[1..][k] == xs[j];
          assert ys[k + 1] == xs[j];
        }
      } else {
        SubsequenceKeepsIdsAscending(xs, ys[1..]);
      }
    }
  }

  /** The panel shows at most ten cards, with distinct ids in strictly ascending order. */
  lemma FilteredIdsAscending(term: string)
    ensures |FilteredPrompts(term)| <= 10
    ensures IdsAscending(FilteredPrompts(term))
  {
    TableIds();
    SubsequenceKeepsIdsAscending(Filter(ExamplePrompts, term), ExamplePrompts);
  }

  /** When every entry matches, nothing is dropped. */
  lemma {:induction false} FilterAllMatch(xs: seq<Example>, term: string)
    requires forall e :: e in xs ==> Matches(e, term)
    ensures Filter(xs, term) == xs
    decreases |xs|
  {
    if xs != [] {
      FilterAllMatch(xs[1..], term);
    }
  }

  /** The empty search term, the initial state of the field, shows all ten examples. */
  lemma EmptyTermKeepsAll()
    ensures FilteredPrompts("") == ExamplePrompts
  {
    forall e | e in ExamplePrompts ensures Matches(e, "") {
      IncludesEmpty(ToLower(e.title));
    }
    FilterAllMatch(ExamplePrompts, "");
  }

  /** Filtering twice with the same term is filtering once. */
  lemma {:induction false} FilterIdempotent(xs: seq<Example>, term: string)
    ensures Filter(Filter(xs, term), term) == Filter(xs, term)
  {
    FilterAllMatch(Filter(xs, term), term);
  }

  /** Two terms with the same lowering give the same result. */
  lemma {:induction false} FilterCaseInsensitive(xs: seq<Example>, t1: string, t2: string)
    requires ToLower(t1) == ToLower(t2)
    ensures Filter(xs, t1) == Filter(xs, t2)
    decreases |xs|
  {
    if xs != [] {
      assert Matches(xs[0], t1) == Matches(xs[0], t2);
      FilterCaseInsensitive(xs[1..], t1, t2);
    }
  }

  /** Searching for the lowered term, or for any spelling that lowers alike, shows the same cards. */
  lemma SearchIgnoresCase(term: string)
    ensures FilteredPrompts(ToLower(term)) == FilteredPrompts(term)
  {
    ToLowerIdempotent(term);
    FilterCaseInsensitive(ExamplePrompts, ToLower(term), term);
  }

  /** An entry that matches a longer term matches any start of it. */
  lemma LongerTermMatchesLess(e: Example, term: string, more: string)
    requires Matches(e, term + more)
    ensures Matches(e, term)
  {
    ToLowerConcat(term, more);
    if Includes(ToLower(e.title), ToLower(term + more)) {
      IncludesPrefix(ToLower(e.title), ToLower(term), ToLower(more));
    } else {
      IncludesPrefix(ToLower(e.prompt), ToLower(term), ToLower(more));
    }
  }

  /** Typing more characters never brings a card back: the result is a subsequence of the previous one. */
  lemma {:induction false} ExtendingTermNarrows(xs: seq<Example>, term: string, more: string)
    ensures SubsequenceOf(Filter(xs, term + more), Filter(xs, term))
    decreases |xs|
  {
    if xs != [] {
      ExtendingTermNarrows(xs[1..], term, more);
      var longer := Filter(xs[1..], term + more);
      var shorter := Filter(xs[1..], term);
      if Matches(xs[0], term + more) {
        LongerTermMatchesLess(xs[0], term, more);
        assert ([xs[0]] + longer)[1..] == longer;
        assert ([xs[0]] + shorter)[1..] == shorter;
      } else if Matches(xs[0], term) {
        SubsequenceSkip(longer, shorter, xs[0]);
      }
    }
  }

  /** Putting one more entry in front keeps a subsequence a subsequence. */
  lemma SubsequenceSkip<T>(xs: seq<T>, ys: seq<T>, y: T)
    requires SubsequenceOf(xs, ys)
    ensures SubsequenceOf(xs, [y] + ys)
  {
    assert ([y] + ys)[1..] == ys;
  }

  /** The two buttons on a card. */
  datatype CardButton = Copy | Use

  /** What a click causes: the text handed to the select callback,
      or the text written to the clipboard together with the confirmation toast. */
  datatype CardEffect = Selected(text: string) | Copied(text: string, toast: Toast)

  /** The toast raised after copying. */
  const CopiedToast := Toast("Prompt copiado!", "O prompt foi copiado para a área de transferência.", false, Some(2000))

  /** A click on button `button` of the card at position `k` of the list shown for `term`;
      nothing happens when there is no such card. */
  function ClickCard(term: string, k: nat, button: CardButton): (r: Option<CardEffect>)
    ensures r.Some? <==> k < |FilteredPrompts(term)|
    ensures r.Some? ==> r.value.text == FilteredPrompts(term)[k].prompt
    ensures r.Some? ==> exists e :: e in ExamplePrompts && Matches(e, term) && e.prompt == r.value.text
    ensures r.Some? ==> (r.value.Selected? <==> button == Use)
    ensures r.Some? && r.value.Copied? ==> r.value.toast == CopiedToast
  {
    var shown := FilteredPrompts(term);
    if k < |shown| then
      assert shown[k] in shown;
      match button
      case Use => Some(Selected(shown[k].prompt))
      case Copy => Some(Copied(shown[k].prompt, CopiedToast))
    else
      None
  }
}
