/**
 * First-run setup: choosing a model from the fixed menu and entering an
 * API key of the right length.
 */
module Setup {
  import opened Wrappers

  /** The bots offered by the menu, in menu order. */
  const Models: seq<string> := [
    "Assistant",
    "Web-Search",
    "Claude-Opus-4.1",
    "Claude-Sonnet-4",
    "GPT-5",
    "GPT-5-Chat",
    "GPT-5-mini",
    "Gemini-2.5-Pro",
    "Grok-4"
  ]

  /** The only length a Poe API key is accepted with. */
  const PoeApiKeyLength := 43

  /** One line of the printed menu: the number to type and the model it names. */
  datatype MenuEntry = MenuEntry(number: int, model: string)

  /** The menu as printed, one entry per model, numbered from 1. */
  function Menu(): seq<MenuEntry> {
    seq(|Models|, i requires 0 <= i < |Models| => MenuEntry(i + 1, Models[i]))
  }

  /** The menu offers every model, numbers its lines 1 to the number of
      models, and shows no number and no model twice. */
  lemma MenuListsEachModelOnce()
    ensures |Menu()| == |Models|
    ensures forall name :: name in Models ==> exists e :: e in Menu() && e.model == name
    ensures forall e :: e in Menu() ==> e.model in Models && 1 <= e.number <= |Models|
    ensures forall i, j :: 0 <= i < j < |Menu()| ==> Menu()[i].number != Menu()[j].number && Menu()[i].model != Menu()[j].model
  {
    var m := Menu();
    forall name | name in Models
      ensures exists e :: e in m && e.model == name
    {
      var j :| 0 <= j < |Models| && Models[j] == name;
      assert m[j] in m;
    }
    forall i, j | 0 <= i < j < |m|
      ensures m[i].model != m[j].model
    {
      if i == 0 {
        SelectionUnique(1, j);
      } else {
        SelectionUnique(i + 1, j);
      }
    }
  }

  /** The model selected by typing the integer `selection`: the 1-based
      menu position, or the first model for any number off the menu. */
  function GetModel(selection: int): (r: string)
    ensures r in Models
    ensures 1 <= selection <= |Models| ==> r == Models[selection - 1]
    ensures !(1 <= selection <= |Models|) ==> r == Models[0]
  {
    var choice := selection - 1;
    if 0 <= choice < |Models| then Models[choice] else Models[0]
  }

  /** Typing the number printed next to a model selects that model. */
  lemma MenuSelects(e: MenuEntry)
    requires e in Menu()
    ensures GetModel(e.number) == e.model
  {
  }

  /** The menu names no model twice, so a model other than the default is
      selected by exactly one number. */
  lemma SelectionUnique(selection: int, i: int)
    requires 0 < i < |Models|
    ensures GetModel(selection) == Models[i] <==> selection == i + 1
  {
  }

  /**
   * The key prompt, with the successive masked entries as `attempts`: it
   * accepts the first entry of exactly 43 characters and prompts again after
   * every other one. `prompts` is the number of entries read. When no entry
   * has the right length the prompt would go on forever; here the attempts
   * run out and the result is None.
   */
  method GetApiKey(attempts: seq<string>) returns (key: Option<string>, prompts: nat)
    ensures prompts <= |attempts|
    ensures forall j :: 0 <= j < |attempts| && (key.None? || j < prompts - 1) ==> |attempts[j]| != PoeApiKeyLength
    ensures key.Some? ==> 0 < prompts && key.value == attempts[prompts - 1] && |key.value| == PoeApiKeyLength
    ensures key.None? ==> prompts == |attempts|
  {
    prompts := 0;
    while prompts < |attempts|
      invariant prompts <= |attempts|
      invariant forall j :: 0 <= j < prompts ==> |attempts[j]| != PoeApiKeyLength
    {
      var apiKey := attempts[prompts];
      prompts := prompts + 1;
      if |apiKey| == PoeApiKeyLength {
        return Some(apiKey), prompts;
      }
    }
    key := None;
  }
}
