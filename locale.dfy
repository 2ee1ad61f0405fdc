/** Choosing the interface language (src/launcher/locale.rs). The two
    translations are JSON files built into the program; which one a name
    selects is modelled, their contents and their parsing are not. */
module Locale {
  import opened Wrappers

  /** The embedded translation files `L_EN` and `L_RU`. */
  datatype LocaleFile = English | Russian

  const EN_US := "en-US"
  const RU_RU := "ru-RU"

  /** The name a file is selected by. */
  function Name(f: LocaleFile): (n: string)
    ensures Load(n) == f
  {
    match f
    case English => EN_US
    case Russian => RU_RU
  }

  /** `Locale::get_list`: the names offered in the settings, Russian first. */
  function GetList(): (names: seq<string>)
    ensures |names| == 2 && names[0] != names[1]
    ensures forall f: LocaleFile :: Name(f) in names
    ensures names[0] == Name(Russian)
  {
    [RU_RU, EN_US]
  }

  /** The file `Locale::load` selects: every name but `"ru-RU"` gives
      English. */
  function Load(name: string): (f: LocaleFile)
    ensures f == Russian <==> name == RU_RU
    ensures name == EN_US ==> f == English
    ensures name != EN_US && name != RU_RU ==> f == English
  {
    if name == EN_US then English
    else if name == RU_RU then Russian
    else English
  }

  /** The warning logged when a name is not known. */
  function Warning(name: string): (w: Option<string>)
    ensures w.Some? <==> name !in GetList()
  {
    if name == EN_US || name == RU_RU then Option.None
    else Some("Language \"" + name + "\" not found. Loading default English")
  }

  /** Each listed name selects its own file, without a warning. */
  lemma ListedNamesSelectOwnFile(i: nat)
    requires i < |GetList()|
    ensures Name(Load(GetList()[i])) == GetList()[i]
    ensures Warning(GetList()[i]).None?
  {
  }
}
