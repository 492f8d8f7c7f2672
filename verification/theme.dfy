/// The colour theme (frontend/src/theme.rs): the light and dark themes,
/// their Catppuccin flavours, the global `THEME` cell and its toggle, the
/// dark-mode switch, and the palette colour behind each colour role.
module Theme {

  datatype Theme = Light | Dark

  /** The Catppuccin flavours the site uses. */
  datatype Flavor = Latte | Mocha

  /** `Theme::flavor`: the light theme uses Latte, the dark theme Mocha. */
  function FlavorOf(t: Theme): (f: Flavor)
    ensures f == Latte <==> t == Light
  {
    match t
    case Light => Latte
    case Dark => Mocha
  }

  /** The theme after a `ToggleThemeClicked` event. */
  function Toggled(t: Theme): (r: Theme)
    ensures r != t
  {
    match t
    case Light => Dark
    case Dark => Light
  }

  /** Toggling is an involution, and each toggle switches the flavour. */
  lemma ToggleInvolutive(t: Theme)
    ensures Toggled(Toggled(t)) == t
    ensures FlavorOf(Toggled(t)) != FlavorOf(t)
  {
  }

  /** The switch is checked exactly when the theme is dark, that is when the
      Mocha flavour is in use. */
  function IsChecked(t: Theme): (checked: bool)
    ensures checked <==> FlavorOf(t) == Mocha
  {
    t == Dark
  }

  datatype Icon = CheckboxChecked | CheckboxUnchecked

  /** `checkbox_icon`: the checked or unchecked box icon. */
  function CheckboxIcon(checked: bool): (i: Icon)
    ensures i == CheckboxChecked <==> checked
  {
    if checked then CheckboxChecked else CheckboxUnchecked
  }

  /** Clicking the switch flips both its checked state and its icon. */
  lemma ToggleFlipsSwitch(t: Theme)
    ensures IsChecked(Toggled(t)) == !IsChecked(t)
    ensures CheckboxIcon(IsChecked(Toggled(t))) != CheckboxIcon(IsChecked(t))
  {
  }

  /** The `THEME` cell. */
  class ThemeState {
    var theme: Theme

    /** The cell starts dark. */
    constructor ()
      ensures theme == Dark
    {
      theme := Dark;
    }

    /** The `ToggleThemeClicked` handler: `THEME.update` with the toggle. */
    method Toggle()
      modifies this
      ensures theme == Toggled(old(theme))
    {
      theme := match theme
        case Light => Dark
        case Dark => Light;
    }
  }

  /** The colour functions `assign_color!` generates. */
  datatype ColorRole =
    | PrimaryText | SecondaryText | PrimaryAccent | Border
    | PrimaryBackground | SecondaryBackground | HoveredBackground

  /** The Catppuccin colour names the roles use. */
  datatype ColorName = Text | Subtext0 | Mauve | Overlay0 | Base | Crust | Surface0

  /** `assign_color!(role => name)`. */
  function ColorOf(role: ColorRole): ColorName
  {
    match role
    case PrimaryText => Text
    case SecondaryText => Subtext0
    case PrimaryAccent => Mauve
    case Border => Overlay0
    case PrimaryBackground => Base
    case SecondaryBackground => Crust
    case HoveredBackground => Surface0
  }

  /** No two roles share a palette colour, so text is never drawn in the
      background colour of the same theme. */
  lemma ColorOfInjective(a: ColorRole, b: ColorRole)
    ensures ColorOf(a) == ColorOf(b) ==> a == b
  {
  }
}
