/** The home page's category tiles: the link to the course list filtered by
    the category, the icon, and the course count. */
module CategoryCard {
  import opened Common
  import opened Text

  /** The icon names the category data may carry. */
  datatype IconName = Code | Database | Palette | Briefcase | Megaphone | Camera
                    | UserIcon | DollarSign | Heart

  /** The drawing components the tiles use, one per icon name. */
  datatype IconComponent = CodeIcon | DatabaseIcon | PaletteIcon | BriefcaseIcon | MegaphoneIcon
                         | CameraIcon | PersonIcon | DollarIcon | HeartIcon

  datatype Category = Category(name: string, icon: IconName, courses: nat)

  /** `category.name.toLowerCase().replace(' ', '-')`: a string pattern
      replaces its first occurrence only. */
  function Slug(name: string): string
  {
    ReplaceFirst(Lower(name), ' ', '-')
  }

  function ReplaceFirst(s: string, from: char, to: char): (r: string)
    ensures |r| == |s|
  {
    if s == [] then []
    else if s[0] == from then [to] + s[1..]
    else [s[0]] + ReplaceFirst(s[1..], from, to)
  }

  /** Only the first space becomes "-": every other character is the
      lower-cased name's, and any later space stays a space. */
  lemma {:induction false} ReplaceFirstOnlyFirst(s: string, from: char, to: char)
    ensures var r := ReplaceFirst(s, from, to);
      forall i :: 0 <= i < |s| ==>
        r[i] == (if s[i] == from && (forall j :: 0 <= j < i ==> s[j] != from) then to else s[i])
  {
    if s != [] && s[0] != from {
      ReplaceFirstOnlyFirst(s[1..], from, to);
      var r := ReplaceFirst(s, from, to);
      forall i | 1 <= i < |s|
        ensures r[i] == (if s[i] == from && (forall j :: 0 <= j < i ==> s[j] != from) then to else s[i])
      {
        assert r[i] == ReplaceFirst(s[1..], from, to)[i - 1];
        assert s[i] == s[1..][i - 1];
        assert (forall j :: 0 <= j < i ==> s[j] != from) <==> (forall j :: 0 <= j < i - 1 ==> s[1..][j] != from) by {
          assert forall j :: 0 <= j < i - 1 ==> s[1..][j] == s[j + 1];
        }
      }
    }
  }

  /** Lower-casing keeps spaces, so a name's first word is joined to the
      rest by "-" and the rest keeps its spaces. */
  lemma {:induction false} SlugOfWords(first: string, rest: string)
    requires forall i :: 0 <= i < |first| ==> first[i] != ' '
    ensures Slug(first + " " + rest) == Lower(first) + "-" + Lower(rest)
  {
    var name := first + " " + rest;
    assert Lower(name) == Lower(first) + " " + Lower(rest);
    ReplaceFirstAfter(Lower(first), Lower(rest));
  }

  lemma {:induction false} ReplaceFirstAfter(a: string, b: string)
    requires forall i :: 0 <= i < |a| ==> a[i] != ' '
    ensures ReplaceFirst(a + " " + b, ' ', '-') == a + "-" + b
  {
    if a != [] {
      assert (a + " " + b)[1..] == a[1..] + " " + b;
      ReplaceFirstAfter(a[1..], b);
    }
  }

  /** "Technology & Data" links to "technology-& data". */
  lemma SlugExample()
    ensures Slug("Technology & Data") == "technology-& data"
  {
    assert "Technology & Data" == "Technology" + " " + "& Data";
    SlugOfWords("Technology", "& Data");
    LowerExample();
  }

  /** The lower-casing of the two words of the example name. */
  lemma LowerExample()
    ensures Lower("Technology") == "technology"
    ensures Lower("& Data") == "& data"
  {
    assert Lower("Technology") == [LowerChar('T')] + Lower("echnology");
    assert Lower("& Data") == "& " + [LowerChar('D')] + Lower("ata");
  }

  /** The card's count line. */
  function CountText(c: Category): string
  {
    DecimalDigits(c.courses) + " courses"
  }

  lemma CountTextReadsBack(c: Category)
    ensures var t := CountText(c);
      t[|t| - 8..] == " courses" && DecimalValue(t[..|t| - 8]) == c.courses
  {
    var t := CountText(c);
    assert t[..|t| - 8] == DecimalDigits(c.courses);
    DecimalRoundTrip(c.courses);
  }

  /** `iconMap[category.icon]` as written: six names have a component. */
  function IconAsWritten(icon: IconName): Option<IconComponent>
  {
    match icon
    case Code => Some(CodeIcon)
    case Database => Some(DatabaseIcon)
    case Palette => Some(PaletteIcon)
    case Briefcase => Some(BriefcaseIcon)
    case Megaphone => Some(MegaphoneIcon)
    case Camera => Some(CameraIcon)
    case _ => None
  }

  /** The lookup is defined for exactly the six names the map lists. */
  lemma IconMapDomain(icon: IconName)
    ensures IconAsWritten(icon).Some? <==>
      icon in {Code, Database, Palette, Briefcase, Megaphone, Camera}
  {
  }

  /** The categories the home page shows (name, icon and count from the
      course data). */
  const HomeCategories: seq<Category> := [
    Category("Technology & Data", Code, 450),
    Category("Business & Marketing", Briefcase, 380),
    Category("Creative & Design", Palette, 320),
    Category("Personal Development", UserIcon, 280),
    Category("Finance & Investing", DollarSign, 150),
    Category("Health & Fitness", Heart, 200)
  ]

  /** Three of the six home-page categories name an icon the map lacks, so
      their tile has no component to draw. */
  lemma HomeCategoriesMissingIcons()
    ensures IconAsWritten(HomeCategories[3].icon).None?
    ensures IconAsWritten(HomeCategories[4].icon).None?
    ensures IconAsWritten(HomeCategories[5].icon).None?
  {
  }

  /** The map with the three missing names added: every icon name the data
      may carry has a component. */
  function Icon(icon: IconName): (r: IconComponent)
  {
    match icon
    case UserIcon => PersonIcon
    case DollarSign => DollarIcon
    case Heart => HeartIcon
    case _ => IconAsWritten(icon).value
  }

  /** The completed map agrees with the written one wherever that is
      defined, and gives distinct icons to distinct names. */
  lemma IconExtendsMap(icon: IconName, other: IconName)
    ensures IconAsWritten(icon).Some? ==> Icon(icon) == IconAsWritten(icon).value
    ensures icon != other ==> Icon(icon) != Icon(other)
    ensures forall k :: 0 <= k < |HomeCategories| ==>
      Icon(HomeCategories[k].icon) in {CodeIcon, BriefcaseIcon, PaletteIcon, PersonIcon, DollarIcon, HeartIcon}
  {
  }
}
