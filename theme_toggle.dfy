/** The colour-mode toggle: a click reads the current `--card` custom
    property, and if it is the cold card colour writes the four warm values
    and the "back to cold" button text, otherwise the four cold values and the
    "to warm" button text. */
module ThemeToggle {
  import opened JsBuiltins

  /** The four custom properties of the document root, and the button's
      text and `aria-label`. */
  datatype Theme = Theme(
    card: string, accent: string, accent2: string, hover: string,
    buttonText: string, ariaLabel: string)

  const Calido: Theme := Theme(
    "#2a1a1f", "#ffb3ba", "#ffa07a", "rgba(255, 179, 186, 0.12)",
    "Cambiar modo (fr\U{ED}o)", "Cambiar a modo fr\U{ED}o")

  const Frio: Theme := Theme(
    "#121829", "#94b9ff", "#ffd08a", "rgba(148, 185, 255, 0.12)",
    "Cambiar modo (c\U{E1}lido)", "Cambiar a modo c\U{E1}lido")

  /** The two spellings of the cold card colour the handler recognises. */
  predicate IsFrioCard(card: string) {
    card == "rgb(18, 24, 41)" || card == "#121829"
  }

  /** The state after one click: the computed value of `--card` is trimmed
      before it is compared. */
  function Toggled(t: Theme): Theme {
    if IsFrioCard(Trim(t.card)) then Calido else Frio
  }

  lemma TrimCards()
    ensures Trim(Frio.card) == Frio.card && Trim(Calido.card) == Calido.card
  {
    TrimKeeps(Frio.card);
    TrimKeeps(Calido.card);
  }

  /** A click always lands on one of the two canonical states, and on the
      warm one exactly when the card was cold. */
  lemma ToggledCanonical(t: Theme)
    ensures Toggled(t) == Calido <==> IsFrioCard(Trim(t.card))
    ensures Toggled(t) == Frio <==> !IsFrioCard(Trim(t.card))
  {
    assert Calido.card != Frio.card;
  }

  /** The warm card colour is neither spelling of the cold one. */
  lemma CalidoCardIsNotFrio()
    ensures !IsFrioCard(Calido.card)
  {
    assert Calido.card[2] != "#121829"[2];
  }

  /** The two canonical states alternate. */
  lemma ToggleAlternates()
    ensures Toggled(Frio) == Calido && Toggled(Calido) == Frio
  {
    TrimCards();
    CalidoCardIsNotFrio();
    ToggledCanonical(Frio);
    ToggledCanonical(Calido);
  }

  /** From any starting state, the third click gives the same state as the
      first and the second a different one: after the first click the
      toggle alternates between the two canonical states. */
  lemma ToggleTwiceFromAny(t: Theme)
    ensures Toggled(Toggled(Toggled(t))) == Toggled(t)
    ensures Toggled(Toggled(t)) != Toggled(t)
  {
    ToggleAlternates();
    ToggledCanonical(t);
  }

  /** The root element's custom properties and the toggle button. */
  class ToggleButton {
    var card: string
    var accent: string
    var accent2: string
    var hover: string
    var buttonText: string
    var ariaLabel: string

    function State(): Theme
      reads this
    {
      Theme(card, accent, accent2, hover, buttonText, ariaLabel)
    }

    constructor (initial: Theme)
      ensures State() == initial
    {
      card, accent, accent2, hover := initial.card, initial.accent, initial.accent2, initial.hover;
      buttonText, ariaLabel := initial.buttonText, initial.ariaLabel;
    }

    /** The click listener: six writes, chosen by the trimmed card value. */
    method Click()
      modifies this
      ensures State() == Toggled(old(State()))
    {
      var cardActual := Trim(card);
      if cardActual == "rgb(18, 24, 41)" || cardActual == "#121829" {
        card := "#2a1a1f";
        accent := "#ffb3ba";
        accent2 := "#ffa07a";
        hover := "rgba(255, 179, 186, 0.12)";
        buttonText := "Cambiar modo (fr\U{ED}o)";
        ariaLabel := "Cambiar a modo fr\U{ED}o";
      } else {
        card := "#121829";
        accent := "#94b9ff";
        accent2 := "#ffd08a";
        hover := "rgba(148, 185, 255, 0.12)";
        buttonText := "Cambiar modo (c\U{E1}lido)";
        ariaLabel := "Cambiar a modo c\U{E1}lido";
      }
    }
  }
}
