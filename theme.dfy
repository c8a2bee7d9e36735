/** The theme registry of app/lib/modules/llm/android/ui/ThemeManager.ts: the custom
    themes (a Map, so insertion-ordered), the current theme, the validation that
    creating and updating a theme apply, and the built-in default. Applying a theme through the
    native module is an outcome given to the operations that apply one. */
module Themes {
  import opened Common

  datatype Sizes = Sizes(small: int, medium: int, large: int)

  datatype Weights = Weights(regular: string, medium: string, bold: string)

  datatype Typography = Typography(fontFamily: string, fontSize: Sizes, fontWeight: Weights)

  /** A theme. `colors` lists the entries of the colours object in key order; a
      number that is absent or zero is 0. */
  datatype Theme = Theme(
    id: string,
    name: string,
    isDark: bool,
    colors: seq<(string, string)>,
    typography: Typography,
    spacing: Sizes,
    borderRadius: Sizes)

  /** `Partial<Theme>`: a given field replaces the whole field. */
  datatype ThemeUpdate = ThemeUpdate(
    id: Option<string>,
    name: Option<string>,
    isDark: Option<bool>,
    colors: Option<seq<(string, string)>>,
    typography: Option<Typography>,
    spacing: Option<Sizes>,
    borderRadius: Option<Sizes>)

  const DefaultId := "default"

  const RequiredColors: seq<string> :=
    ["primary", "secondary", "background", "surface", "text", "textSecondary", "border", "error", "success", "warning"]

  /** The first error `validateTheme` throws. */
  datatype ThemeError =
    | MissingColor(color: string)
    | InvalidColor(key: string, value: string)
    | MissingFontFamily
    | MissingFontSizes
    | MissingSpacing
    | MissingBorderRadius

  const DefaultColors: seq<(string, string)> :=
    [("primary", "#9C7DFF"), ("secondary", "#6B7280"), ("background", "#FFFFFF"),
     ("surface", "#F3F4F6"), ("text", "#1F2937"), ("textSecondary", "#4B5563"),
     ("border", "#E5E7EB"), ("error", "#EF4444"), ("success", "#10B981"),
     ("warning", "#F59E0B")]

  function DefaultTheme(): Theme
  {
    Theme(DefaultId, "Default Light", false, DefaultColors,
      Typography("System", Sizes(12, 14, 16), Weights("400", "500", "700")),
      Sizes(8, 16, 24),
      Sizes(4, 8, 12))
  }

  /** `theme.colors[name]`. */
  function ColorOf(colors: seq<(string, string)>, name: string): Option<string>
  {
    if colors == [] then None
    else if colors[0].0 == name then Some(colors[0].1)
    else ColorOf(colors[1..], name)
  }

  predicate IsHexDigit(c: char)
  {
    ('0' <= c <= '9') || ('a' <= c <= 'f') || ('A' <= c <= 'F')
  }

  /** `/^#([A-Fa-f0-9]{6}|[A-Fa-f0-9]{3})$/`. */
  predicate IsHexColor(s: string)
  {
    (|s| == 7 || |s| == 4) && s[0] == '#' && forall i :: 1 <= i < |s| ==> IsHexDigit(s[i])
  }

  /** A colour the first loop accepts: present and truthy. */
  predicate HasColor(colors: seq<(string, string)>, name: string)
  {
    ColorOf(colors, name).Some? && ColorOf(colors, name).value != ""
  }

  predicate AllNonZero(s: Sizes)
  {
    s.small != 0 && s.medium != 0 && s.large != 0
  }

  /** What a valid theme is, stated as a whole. */
  predicate WellFormed(t: Theme)
  {
    && (forall i :: 0 <= i < |RequiredColors| ==> HasColor(t.colors, RequiredColors[i]))
    && (forall i :: 0 <= i < |t.colors| ==> IsHexColor(t.colors[i].1))
    && t.typography.fontFamily != ""
    && AllNonZero(t.typography.fontSize)
    && AllNonZero(t.spacing)
    && AllNonZero(t.borderRadius)
  }

  /** The loop over the required colours: the first that is missing or empty. */
  function FirstMissing(required: seq<string>, colors: seq<(string, string)>): (r: Option<string>)
    ensures r.None? <==> forall i :: 0 <= i < |required| ==> HasColor(colors, required[i])
    ensures r.Some? ==> r.value in required && !HasColor(colors, r.value)
  {
    if required == [] then None
    else if !HasColor(colors, required[0]) then Some(required[0])
    else FirstMissing(required[1..], colors)
  }

  /** The loop over `Object.entries(theme.colors)`: the first entry that is not a hex
      colour. */
  function FirstInvalid(colors: seq<(string, string)>): (r: Option<(string, string)>)
    ensures r.None? <==> forall i :: 0 <= i < |colors| ==> IsHexColor(colors[i].1)
    ensures r.Some? ==> r.value in colors && !IsHexColor(r.value.1)
  {
    if colors == [] then None
    else if !IsHexColor(colors[0].1) then Some(colors[0])
    else FirstInvalid(colors[1..])
  }

  /** `validateTheme`: `None` when it returns, otherwise the error it throws. */
  function Validate(t: Theme): (r: Option<ThemeError>)
    ensures r.None? <==> WellFormed(t)
  {
    match FirstMissing(RequiredColors, t.colors)
    case Some(c) => Some(MissingColor(c))
    case None =>
      match FirstInvalid(t.colors)
      case Some(e) => Some(InvalidColor(e.0, e.1))
      case None =>
        if t.typography.fontFamily == "" then Some(MissingFontFamily)
        else if !AllNonZero(t.typography.fontSize) then Some(MissingFontSizes)
        else if !AllNonZero(t.spacing) then Some(MissingSpacing)
        else if !AllNonZero(t.borderRadius) then Some(MissingBorderRadius)
        else None
  }

  /** A colour whose name no earlier entry has is found. */
  lemma {:induction false} ColorOfAt(colors: seq<(string, string)>, i: nat)
    requires i < |colors|
    requires forall j :: 0 <= j < i ==> colors[j].0 != colors[i].0
    ensures ColorOf(colors, colors[i].0) == Some(colors[i].1)
  {
    if i > 0 {
      ColorOfAt(colors[1..], i - 1);
    }
  }

  lemma HexLiteral(s: string)
    requires |s| == 7 && s[0] == '#'
    requires IsHexDigit(s[1]) && IsHexDigit(s[2]) && IsHexDigit(s[3])
    requires IsHexDigit(s[4]) && IsHexDigit(s[5]) && IsHexDigit(s[6])
    ensures IsHexColor(s)
  {
  }

  lemma RequiredColorsDistinct()
    ensures NoDup(RequiredColors)
  {
  }

  /** The built-in colours name the required colours, in order. */
  lemma DefaultColorNames()
    ensures |DefaultColors| == |RequiredColors|
    ensures forall i :: 0 <= i < |DefaultColors| ==> DefaultColors[i].0 == RequiredColors[i]
  {
  }

  /** Every colour of the built-in theme is a hex colour. */
  lemma DefaultColorsHex()
    ensures forall i :: 0 <= i < |DefaultColors| ==> IsHexColor(DefaultColors[i].1)
  {
    HexLiteral("#9C7DFF"); HexLiteral("#6B7280"); HexLiteral("#FFFFFF");
    HexLiteral("#F3F4F6"); HexLiteral("#1F2937"); HexLiteral("#4B5563");
    HexLiteral("#E5E7EB"); HexLiteral("#EF4444"); HexLiteral("#10B981");
    HexLiteral("#F59E0B");
  }

  /** Every required colour is present in the built-in theme. */
  lemma DefaultColorsPresent()
    ensures forall i :: 0 <= i < |RequiredColors| ==> HasColor(DefaultColors, RequiredColors[i])
  {
    RequiredColorsDistinct();
    DefaultColorNames();
    DefaultColorsHex();
    forall i | 0 <= i < |RequiredColors| ensures HasColor(DefaultColors, RequiredColors[i]) {
      ColorOfAt(DefaultColors, i);
      assert IsHexColor(DefaultColors[i].1);
    }
  }

  /** The built-in theme passes its own validation. */
  lemma DefaultThemeIsValid()
    ensures Validate(DefaultTheme()).None?
  {
    DefaultColorsHex();
    DefaultColorsPresent();
  }

  /** A zero size is treated as missing. */
  lemma ZeroSizeRejected(t: Theme)
    requires t.spacing.medium == 0
    ensures Validate(t).Some?
  {
  }

  /** `{ ...theme, ...updates }`. */
  function Merge(t: Theme, u: ThemeUpdate): (r: Theme)
    ensures r.id == (if u.id.Some? then u.id.value else t.id)
    ensures r.colors == (if u.colors.Some? then u.colors.value else t.colors)
    ensures r.name == (if u.name.Some? then u.name.value else t.name)
    ensures r.isDark == (if u.isDark.Some? then u.isDark.value else t.isDark)
    ensures r.typography == (if u.typography.Some? then u.typography.value else t.typography)
    ensures r.spacing == (if u.spacing.Some? then u.spacing.value else t.spacing)
    ensures r.borderRadius == (if u.borderRadius.Some? then u.borderRadius.value else t.borderRadius)
  {
    Theme(
      if u.id.Some? then u.id.value else t.id,
      if u.name.Some? then u.name.value else t.name,
      if u.isDark.Some? then u.isDark.value else t.isDark,
      if u.colors.Some? then u.colors.value else t.colors,
      if u.typography.Some? then u.typography.value else t.typography,
      if u.spacing.Some? then u.spacing.value else t.spacing,
      if u.borderRadius.Some? then u.borderRadius.value else t.borderRadius)
  }

  class ThemeManager {
    /** The keys of `customThemes` in insertion order. */
    var ids: seq<string>
    var customThemes: map<string, Theme>
    var currentTheme: Theme

    ghost predicate Valid()
      reads this
    {
      NoDup(ids) && forall id :: id in customThemes <==> id in ids
    }

    constructor ()
      ensures Valid() && ids == [] && customThemes == map[] && currentTheme == DefaultTheme()
    {
      ids := [];
      customThemes := map[];
      currentTheme := DefaultTheme();
    }

    /** `Map.set`: an existing key keeps its place, a new one goes last. */
    method Put(id: string, t: Theme)
      requires Valid()
      modifies this`ids, this`customThemes
      ensures Valid()
      ensures customThemes == old(customThemes)[id := t]
      ensures ids == if id in old(ids) then old(ids) else old(ids) + [id]
    {
      if id !in ids {
        ids := ids + [id];
      }
      customThemes := customThemes[id := t];
    }

    /** `createTheme` with `id` the fresh id drawn for it: the theme is validated
        before it is stored, and an invalid one leaves the registry unchanged. */
    method CreateTheme(theme: Theme, id: string) returns (r: Result<Theme>)
      requires Valid()
      modifies this`ids, this`customThemes
      ensures Valid()
      ensures Validate(theme.(id := id)).Some? ==> r.Err? && customThemes == old(customThemes) && ids == old(ids)
      ensures Validate(theme.(id := id)).None? ==>
        && r == Ok(theme.(id := id))
        && customThemes == old(customThemes)[id := theme.(id := id)]
        && ids == (if id in old(ids) then old(ids) else old(ids) + [id])
    {
      var newTheme := theme.(id := id);
      if Validate(newTheme).Some? {
        return Err("Invalid theme");
      }
      Put(id, newTheme);
      r := Ok(newTheme);
    }

    /** `setTheme`: the current theme changes only once the theme was applied. */
    method SetTheme(id: string, applied: Outcome) returns (r: Outcome)
      modifies this`currentTheme
      ensures id != DefaultId && id !in customThemes ==> r.Fail? && currentTheme == old(currentTheme)
      ensures id == DefaultId || id in customThemes ==>
        r == applied &&
        currentTheme == (if applied.Fail? then old(currentTheme) else if id == DefaultId then DefaultTheme() else customThemes[id])
    {
      var theme: Theme;
      if id == DefaultId {
        theme := DefaultTheme();
      } else {
        if id !in customThemes {
          return Fail("Theme not found: " + id);
        }
        theme := customThemes[id];
      }
      r := applied;
      if applied.Pass? {
        currentTheme := theme;
      }
    }

    /** `updateTheme`: an unknown id is an error; the merged theme is validated before
        it replaces the stored one, and re-applied when it is the current theme. */
    method UpdateTheme(id: string, u: ThemeUpdate, applied: Outcome) returns (r: Result<Theme>)
      requires Valid()
      modifies this`ids, this`customThemes, this`currentTheme
      ensures Valid()
      ensures id !in old(customThemes) ==>
        r.Err? && customThemes == old(customThemes) && ids == old(ids) && currentTheme == old(currentTheme)
      ensures id in old(customThemes) && Validate(Merge(old(customThemes)[id], u)).Some? ==>
        r.Err? && customThemes == old(customThemes) && ids == old(ids) && currentTheme == old(currentTheme)
      ensures id in old(customThemes) && Validate(Merge(old(customThemes)[id], u)).None? ==>
        var merged := Merge(old(customThemes)[id], u);
        && customThemes == old(customThemes)[id := merged]
        && ids == old(ids)
        && (old(currentTheme).id != id ==> r == Ok(merged) && currentTheme == old(currentTheme))
        && (old(currentTheme).id == id && applied.Pass? ==>
              r == Ok(merged) && currentTheme == (if id == DefaultId then DefaultTheme() else merged))
        && (old(currentTheme).id == id && applied.Fail? ==> r.Err? && currentTheme == old(currentTheme))
    {
      if id !in customThemes {
        return Err("Theme not found: " + id);
      }
      var merged := Merge(customThemes[id], u);
      if Validate(merged).Some? {
        return Err("Invalid theme");
      }
      Put(id, merged);
      if currentTheme.id == id {
        var applyRun := SetTheme(id, applied);
        if applyRun.Fail? {
          return Err(applyRun.error);
        }
      }
      r := Ok(merged);
    }

    /** `deleteTheme`: the default and an unknown id are errors; deleting the current
        theme switches back to the default. */
    method DeleteTheme(id: string, applied: Outcome) returns (r: Outcome)
      requires Valid()
      modifies this`ids, this`customThemes, this`currentTheme
      ensures Valid()
      ensures id == DefaultId || id !in old(customThemes) ==>
        r.Fail? && customThemes == old(customThemes) && ids == old(ids) && currentTheme == old(currentTheme)
      ensures id != DefaultId && id in old(customThemes) ==>
        && customThemes == old(customThemes) - {id}
        && ids == Without(old(ids), id)
        && (old(currentTheme).id == id ==> r == applied && currentTheme == (if applied.Pass? then DefaultTheme() else old(currentTheme)))
        && (old(currentTheme).id != id ==> r == Pass && currentTheme == old(currentTheme))
    {
      if id == DefaultId {
        return Fail("Cannot delete default theme");
      }
      if id !in customThemes {
        return Fail("Theme not found: " + id);
      }
      WithoutKeeps(ids, id);
      ids := Without(ids, id);
      customThemes := customThemes - {id};
      r := Pass;
      if currentTheme.id == id {
        r := SetTheme(DefaultId, applied);
      }
    }

    /** `getTheme`: the built-in theme for `default`, whatever is stored. */
    function GetTheme(id: string): (r: Option<Theme>)
      reads this
      ensures id == DefaultId ==> r == Some(DefaultTheme())
      ensures id != DefaultId ==> (r.Some? <==> id in customThemes) && (r.Some? ==> r.value == customThemes[id])
    {
      if id == DefaultId then Some(DefaultTheme())
      else if id in customThemes then Some(customThemes[id]) else None
    }

    /** `getAllThemes`: the default first, then the custom themes in insertion order. */
    function GetAllThemes(): (r: seq<Theme>)
      reads this
      requires Valid()
      ensures |r| == |ids| + 1 && r[0] == DefaultTheme()
      ensures forall i :: 0 <= i < |ids| ==> r[i + 1] == customThemes[ids[i]]
    {
      [DefaultTheme()] + ValuesOf(ids, customThemes)
    }
  }

  function ValuesOf(ids: seq<string>, m: map<string, Theme>): (r: seq<Theme>)
    requires forall i :: 0 <= i < |ids| ==> ids[i] in m
    ensures |r| == |ids| && forall i :: 0 <= i < |ids| ==> r[i] == m[ids[i]]
  {
    if ids == [] then [] else [m[ids[0]]] + ValuesOf(ids[1..], m)
  }

  /** The key order after `Map.delete`. */
  function Without(s: seq<string>, x: string): (r: seq<string>)
    ensures forall y :: y in r <==> y in s && y != x
  {
    if s == [] then [] else (if s[0] == x then [] else [s[0]]) + Without(s[1..], x)
  }

  lemma {:induction false} WithoutKeeps(s: seq<string>, x: string)
    requires NoDup(s)
    ensures NoDup(Without(s, x))
  {
    if s != [] {
      WithoutKeeps(s[1..], x);
      assert forall i :: 0 < i < |s| ==> s[i] != s[0];
      assert s[0] !in s[1..];
    }
  }
}
