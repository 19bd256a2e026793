/**
  The global loading flag (`useLoadingStore`): two fields, `isLoading` and
  `loadingText`, that every action overwrites. There is no nesting counter, so the
  most recent action alone decides the state.
 */
module LoadingStore {
  import opened Wrappers

  datatype LoadingState = LoadingState(isLoading: bool, loadingText: Option<string>)

  const Initial := LoadingState(false, None)

  /** The three actions of the store, with their optional text argument. */
  datatype Action =
    | SetLoading(loading: bool, text: Option<string>)
    | ShowLoading(text: Option<string>)
    | HideLoading

  /** The state an action leaves behind; the state before it plays no part. */
  function Effect(a: Action): (s: LoadingState)
    ensures a.ShowLoading? ==> s.isLoading && s.loadingText == a.text
    ensures a.HideLoading? ==> s == Initial
    ensures a.SetLoading? ==> s.isLoading == a.loading && s.loadingText == a.text
  {
    match a
    case SetLoading(loading, text) => LoadingState(loading, text)
    case ShowLoading(text) => LoadingState(true, text)
    case HideLoading => LoadingState(false, None)
  }

  /** The state after performing `actions` in order, starting from `s`. */
  function Run(s: LoadingState, actions: seq<Action>): LoadingState
    decreases |actions|
  {
    if actions == [] then s else Run(Effect(actions[0]), actions[1..])
  }

  /** `setLoading(true, t)` is `showLoading(t)`; `setLoading(false)` is `hideLoading()`. */
  lemma SetLoadingAgrees(t: Option<string>)
    ensures Effect(SetLoading(true, t)) == Effect(ShowLoading(t))
    ensures Effect(SetLoading(false, None)) == Effect(HideLoading)
  {
  }

  /** `setLoading(false, t)` with a text keeps that text while not loading. */
  lemma SetLoadingFalseKeepsText(t: string)
    ensures Effect(SetLoading(false, Some(t))) != Effect(HideLoading)
    ensures !Effect(SetLoading(false, Some(t))).isLoading
  {
  }

  /** The last action wins: a run ends in the state its final action sets. */
  lemma {:induction false} LastActionWins(s: LoadingState, actions: seq<Action>)
    requires actions != []
    ensures Run(s, actions) == Effect(actions[|actions| - 1])
    decreases |actions|
  {
    if |actions| > 1 {
      LastActionWins(Effect(actions[0]), actions[1..]);
    }
  }

  /** One `hideLoading` after any actions, however many `showLoading` calls, ends loading. */
  lemma HideAfterAnything(s: LoadingState, actions: seq<Action>)
    ensures Run(s, actions + [HideLoading]) == Initial
  {
    LastActionWins(s, actions + [HideLoading]);
  }

  class Store {
    var isLoading: bool
    var loadingText: Option<string>

    function State(): LoadingState
      reads this
    {
      LoadingState(isLoading, loadingText)
    }

    /** The store starts not loading and without text. */
    constructor ()
      ensures State() == Initial
    {
      isLoading, loadingText := false, None;
    }

    method SetLoading(loading: bool, text: Option<string>)
      modifies this
      ensures State() == Effect(Action.SetLoading(loading, text))
    {
      isLoading, loadingText := loading, text;
    }

    method ShowLoading(text: Option<string>)
      modifies this
      ensures State() == Effect(Action.ShowLoading(text))
    {
      isLoading, loadingText := true, text;
    }

    method HideLoading()
      modifies this
      ensures State() == Effect(Action.HideLoading)
    {
      isLoading, loadingText := false, None;
    }
  }
}
