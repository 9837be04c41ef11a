/** The content dashboard: a control level chosen with three tabs and a
    ten-field form whose inputs appear tier by tier. The colour picker sits
    inside the level-3 block, so it is mounted (and draws a first palette,
    which its callback writes into the form) whenever level 3 is entered,
    and unmounted when it is left. */
module DashboardForm {
  import Palette

  datatype Field =
    | BrandName | Topic
    | Objective | TargetAudience | Platform | Tone
    | ArtStyle | IndianContext | ColorPalette | TextStructure

  /** The form record, named as the request fields it is sent as. */
  datatype FormData = FormData(
    brandName: string,
    topic: string,
    objective: string,
    targetAudience: string,
    platform: string,
    tone: string,
    artStyle: string,
    indianContext: string,
    colorPalette: string,
    textStructure: string)

  /** The form as the page opens: empty texts and the first option of each select. */
  const InitialForm := FormData("", "", "Engagement", "", "Instagram", "Modern", "Photorealistic", "", "", "Short Caption")

  function Get(f: FormData, name: Field): string {
    match name
    case BrandName => f.brandName
    case Topic => f.topic
    case Objective => f.objective
    case TargetAudience => f.targetAudience
    case Platform => f.platform
    case Tone => f.tone
    case ArtStyle => f.artStyle
    case IndianContext => f.indianContext
    case ColorPalette => f.colorPalette
    case TextStructure => f.textStructure
  }

  /** `{ ...formData, [name]: value }`: the named field takes the value, the others keep theirs. */
  function With(f: FormData, name: Field, value: string): (r: FormData)
    ensures Get(r, name) == value
    ensures forall g :: g != name ==> Get(r, g) == Get(f, g)
  {
    match name
    case BrandName => f.(brandName := value)
    case Topic => f.(topic := value)
    case Objective => f.(objective := value)
    case TargetAudience => f.(targetAudience := value)
    case Platform => f.(platform := value)
    case Tone => f.(tone := value)
    case ArtStyle => f.(artStyle := value)
    case IndianContext => f.(indianContext := value)
    case ColorPalette => f.(colorPalette := value)
    case TextStructure => f.(textStructure := value)
  }

  /** Two forms that agree on every field are the same form. */
  lemma FormExtensionality(f: FormData, g: FormData)
    requires forall name :: Get(f, name) == Get(g, name)
    ensures f == g
  {
    assert Get(f, BrandName) == Get(g, BrandName) && Get(f, Topic) == Get(g, Topic);
    assert Get(f, Objective) == Get(g, Objective) && Get(f, TargetAudience) == Get(g, TargetAudience);
    assert Get(f, Platform) == Get(g, Platform) && Get(f, Tone) == Get(g, Tone);
    assert Get(f, ArtStyle) == Get(g, ArtStyle) && Get(f, IndianContext) == Get(g, IndianContext);
    assert Get(f, ColorPalette) == Get(g, ColorPalette) && Get(f, TextStructure) == Get(g, TextStructure);
  }

  /** Setting a field to the value it already has changes nothing, and a
      later change of the same field overrides an earlier one. */
  lemma WithLaws(f: FormData, name: Field, a: string, b: string)
    ensures With(f, name, Get(f, name)) == f
    ensures With(With(f, name, a), name, b) == With(f, name, b)
  {
    FormExtensionality(With(f, name, Get(f, name)), f);
    FormExtensionality(With(With(f, name, a), name, b), With(f, name, b));
  }

  /** The inputs of each block of the page. */
  const Tier1Fields: set<Field> := {BrandName, Topic}
  const Tier2Fields: set<Field> := {Objective, TargetAudience, Platform, Tone}
  const Tier3Fields: set<Field> := {ArtStyle, ColorPalette, IndianContext, TextStructure}

  /** The inputs on screen: the first block always, the strategy block from
      level 2 on, the creative block from level 3 on. */
  function VisibleFields(level: int): (v: set<Field>)
    ensures Tier1Fields <= v
    ensures level < 2 ==> v == Tier1Fields
    ensures level >= 3 ==> forall name: Field :: name in v
  {
    assert forall name: Field :: name in Tier1Fields + Tier2Fields + Tier3Fields by {
      forall name: Field ensures name in Tier1Fields + Tier2Fields + Tier3Fields {
        EveryFieldTiered(name);
      }
    }
    Tier1Fields
    + (if level >= 2 then Tier2Fields else {})
    + (if level >= 3 then Tier3Fields else {})
  }

  /** Each of the ten fields belongs to one of the three blocks. */
  lemma EveryFieldTiered(name: Field)
    ensures name in Tier1Fields + Tier2Fields + Tier3Fields
  {
    match name
    case BrandName | Topic =>
    case Objective | TargetAudience | Platform | Tone =>
    case ArtStyle | IndianContext | ColorPalette | TextStructure =>
  }

  /** The block a field's input lives in. */
  function Tier(name: Field): nat {
    if name in Tier1Fields then 1 else if name in Tier2Fields then 2 else 3
  }

  /** A field is on screen exactly when the level reaches its block, so
      raising the level only ever adds inputs, and at level 3 all ten show. */
  lemma VisibleIffTier(level: int, name: Field)
    ensures name in VisibleFields(level) <==> Tier(name) <= level || Tier(name) == 1
    ensures level >= 3 ==> name in VisibleFields(level)
  {
  }

  /** Only brand name and topic are `required`. */
  const RequiredFields: set<Field> := {BrandName, Topic}

  /** The required inputs are on screen at every level. */
  lemma RequiredAlwaysVisible(level: int)
    ensures RequiredFields <= VisibleFields(level)
    ensures forall name :: name in RequiredFields ==> Tier(name) == 1
  {
  }

  /** The browser submits the form only when every required input is filled. */
  predicate CanSubmit(f: FormData) {
    forall name :: name in RequiredFields ==> Get(f, name) != ""
  }

  /** The three level tabs. */
  datatype LevelTab = QuickGen | StudioMode | DirectorMode

  /** The level a tab selects: only 1, 2 or 3. */
  function TabLevel(tab: LevelTab): (level: int)
    ensures 1 <= level <= 3
  {
    match tab
    case QuickGen => 1
    case StudioMode => 2
    case DirectorMode => 3
  }

  /** Each tab selects its own level, and every level from 1 to 3 has a tab. */
  lemma TabsCoverLevels(level: int)
    requires 1 <= level <= 3
    ensures exists tab :: TabLevel(tab) == level
    ensures forall a, b :: TabLevel(a) == TabLevel(b) ==> a == b
  {
    if level == 1 {
      assert TabLevel(QuickGen) == 1;
    } else if level == 2 {
      assert TabLevel(StudioMode) == 2;
    } else {
      assert TabLevel(DirectorMode) == 3;
    }
  }

  /** `{ ...formData, level }`: what `onGenerate` receives. */
  datatype Submission = Submission(form: FormData, level: int)

  class Dashboard {
    var level: int
    var form: FormData
    /** The mounted colour picker, present exactly at level 3. */
    var picker: Palette.ColorPaletteGenerator?

    ghost predicate Valid()
      reads this
    {
      1 <= level <= 3 && (picker != null <==> level == 3)
    }

    /** Level 1, the initial form, no picker. */
    constructor ()
      ensures Valid()
      ensures level == 1 && form == InitialForm && picker == null
    {
      level := 1;
      form := InitialForm;
      picker := null;
    }

    /** `handleChange`: one field changes, the level does not. */
    method HandleChange(name: Field, value: string)
      requires Valid()
      modifies this
      ensures Valid()
      ensures form == With(old(form), name, value)
      ensures level == old(level) && picker == old(picker)
    {
      form := With(form, name, value);
    }

    /** `handleColorSelect`: the picker's selection replaces the palette field only. */
    method HandleColorSelect(selection: string)
      requires Valid()
      modifies this
      ensures Valid()
      ensures form == With(old(form), ColorPalette, selection)
      ensures level == old(level) && picker == old(picker)
    {
      form := form.(colorPalette := selection);
    }

    /** `handleSubmit`, reached once the browser has checked the required
        inputs: all ten fields, shown or not, with the current level. */
    method HandleSubmit() returns (s: Submission)
      requires CanSubmit(form)
      ensures s.level == level
      ensures s.form.brandName != "" && s.form.topic != ""
      ensures forall name :: Get(s.form, name) == Get(form, name)
    {
      s := Submission(form, level);
    }

    /** A level tab's click. Entering level 3 mounts a fresh picker, which
        draws its first palette and writes the selection into the form;
        otherwise the form is left as it is. Leaving level 3 drops the picker. */
    method SelectLevel(tab: LevelTab, draws: seq<nat>)
      requires Valid() && Palette.ValidDraws(draws)
      modifies this
      ensures Valid()
      ensures level == TabLevel(tab)
      ensures old(level) != 3 && level == 3 ==>
        && fresh(picker) && picker.colors == Palette.Colors(draws)
        && form == With(old(form), ColorPalette, Palette.Selection(draws))
      ensures !(old(level) != 3 && level == 3) ==> form == old(form)
      ensures old(level) == 3 && level == 3 ==> picker == old(picker)
    {
      var previous := level;
      level := TabLevel(tab);
      if level != 3 {
        picker := null;
      } else if previous != 3 {
        var p := new Palette.ColorPaletteGenerator();
        var selection := p.GenerateColors(draws);
        picker := p;
        HandleColorSelect(selection);
      }
    }

    /** The picker's Regenerate button (or a click on the swatches): five
        new colours replace all of the old ones, and the form gets their selection. */
    method RegeneratePalette(draws: seq<nat>)
      requires Valid() && level == 3 && Palette.ValidDraws(draws)
      modifies this, picker
      ensures Valid() && level == 3 && picker == old(picker)
      ensures picker.colors == Palette.Colors(draws)
      ensures form == With(old(form), ColorPalette, Palette.Selection(draws))
    {
      var selection := picker.GenerateColors(draws);
      HandleColorSelect(selection);
    }
  }
}
