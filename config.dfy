/**
 * The puzzle table of the automation: for each puzzle key, its display name,
 * the Pinterest board it is pinned to, its primary colour and its two
 * gradient colours. The table is an insertion-ordered dictionary: `Keys()`
 * lists the keys in declaration order and `Entry(i)` is the value stored
 * under the i-th key.
 */
module Config {
  import opened Wrappers
  import opened Text
  import opened Colors
  import Drawing

  datatype Puzzle = Puzzle(name: string, boardId: string, color: string, gradient: seq<string>)

  /** `PUZZLES.keys()`, in insertion order: five lower-case keys. */
  function Keys(): (ks: seq<string>)
    ensures |ks| == 5
    ensures forall i :: 0 <= i < |ks| ==> Lower(ks[i]) == ks[i]
  {
    ["wordle", "quordle", "colordle", "semantle", "phoodle"]
  }

  /** `PUZZLES[Keys()[i]]`. */
  function Entry(i: nat): (p: Puzzle)
    requires i < |Keys()|
    ensures |p.gradient| == 2 && p.gradient[0] == p.color
  {
    match i
    case 0 => Puzzle("Wordle", "924434329702687588", "#6aaa64", ["#6aaa64", "#538d4e"])
    case 1 => Puzzle("Quordle", "924434329702687592", "#9b59b6", ["#9b59b6", "#8e44ad"])
    case 2 => Puzzle("Colordle", "924434329702687590", "#e74c3c", ["#e74c3c", "#c0392b"])
    case 3 => Puzzle("Semantle", "924434329702687594", "#3498db", ["#3498db", "#2980b9"])
    case 4 => Puzzle("Phoodle", "924434329702687593", "#f39c12", ["#f39c12", "#e67e22"])
  }

  /** The position of `key` in a list of keys, if it is there. */
  function IndexIn(keys: seq<string>, key: string): (r: Option<nat>)
    ensures r.Some? ==> r.value < |keys| && keys[r.value] == key
    ensures r.None? <==> key !in keys
  {
    if keys == [] then None
    else if keys[0] == key then Some(0)
    else match IndexIn(keys[1..], key)
      case None => None
      case Some(i) => Some(i + 1)
  }

  /** `PUZZLES.get(key)`: the entry stored under `key`, if there is one. */
  function Lookup(key: string): (r: Option<Puzzle>)
    ensures r.Some? <==> key in Keys()
  {
    match IndexIn(Keys(), key)
    case None => None
    case Some(i) => Some(Entry(i))
  }

  predicate AllDistinct(ks: seq<string>) {
    forall i, j :: 0 <= i < j < |ks| ==> ks[i] != ks[j]
  }

  /** Exactly five keys, all different. */
  lemma TableKeys()
    ensures |Keys()| == 5 && AllDistinct(Keys())
  {
  }

  /** Looking up the i-th key finds the i-th entry. */
  lemma LookupKey(i: nat)
    requires i < |Keys()|
    ensures IndexIn(Keys(), Keys()[i]) == Some(i)
    ensures Lookup(Keys()[i]) == Some(Entry(i))
  {
    TableKeys();
    var r := IndexIn(Keys(), Keys()[i]);
    assert Keys()[r.value] == Keys()[i];
  }

  /** Whatever a lookup finds is a well-formed entry for the key looked up. */
  lemma LookupWellFormed(key: string)
    requires Lookup(key).Some?
    ensures WellFormedEntry(key, Lookup(key).value)
  {
    var i := IndexIn(Keys(), key).value;
    TableEntriesWellFormed(i);
  }

  predicate HashHex(s: string) {
    |s| == 7 && s[0] == '#' && AllHexDigits(s[1..])
  }

  /** "#" followed by six hex digits parses to the three bytes they spell. */
  lemma HashSixDigits(s: string)
    requires HashHex(s)
    ensures HexToRgb(s) == Ok(Rgb(HexValue(s[1..3]), HexValue(s[3..5]), HexValue(s[5..7])))
    ensures InByteRange(HexToRgb(s).value)
  {
    var x := s[1..];
    assert s == "#" + x;
    assert x[0] != '#';
    assert HexBody(x) == x;
    assert x == x[0..2] + x[2..4] + x[4..6];
    assert x[0..2] == s[1..3] && x[2..4] == s[3..5] && x[4..6] == s[5..7];
    HexToRgbOfBytes(x, x[0..2], x[2..4], x[4..6]);
    HexToRgbLeadingHash(x);
  }

  predicate WellFormedEntry(key: string, p: Puzzle) {
    && Lower(p.name) == key
    && |p.gradient| == 2
    && p.gradient[0] == p.color
    && HexToRgb(p.color).Ok? && InByteRange(HexToRgb(p.color).value)
    && HexToRgb(p.gradient[1]).Ok? && InByteRange(HexToRgb(p.gradient[1]).value)
    && Drawing.KnownIcon(key)
  }

  /** Every entry's lower-cased name is its key, its gradient starts at its colour,
    * both gradient colours are well-formed and its key has an icon. */
  lemma TableEntriesWellFormed(i: nat)
    requires i < |Keys()|
    ensures WellFormedEntry(Keys()[i], Entry(i))
  {
    var p := Entry(i);
    TableNameLowersToKey(i);
    TableColorsAreHashHex(i);
    HashSixDigits(p.color);
    HashSixDigits(p.gradient[1]);
    TableKeysHaveIcons(i);
  }

  /** Every key is one of the five puzzles the icon drawer knows. */
  lemma TableKeysHaveIcons(i: nat)
    requires i < |Keys()|
    ensures Drawing.KnownIcon(Keys()[i])
  {
  }

  /** Every entry has two gradient colours, the first its own colour, all "#" and six hex digits. */
  lemma TableColorsAreHashHex(i: nat)
    requires i < |Keys()|
    ensures |Entry(i).gradient| == 2 && Entry(i).gradient[0] == Entry(i).color
    ensures HashHex(Entry(i).color) && HashHex(Entry(i).gradient[1])
  {
    match i
    case 0 => HashHexByDigits("#6aaa64"); HashHexByDigits("#538d4e");
    case 1 => HashHexByDigits("#9b59b6"); HashHexByDigits("#8e44ad");
    case 2 => HashHexByDigits("#e74c3c"); HashHexByDigits("#c0392b");
    case 3 => HashHexByDigits("#3498db"); HashHexByDigits("#2980b9");
    case 4 => HashHexByDigits("#f39c12"); HashHexByDigits("#e67e22");
  }

  lemma HashHexByDigits(s: string)
    requires |s| == 7 && s[0] == '#'
    requires IsHexDigit(s[1]) && IsHexDigit(s[2]) && IsHexDigit(s[3])
    requires IsHexDigit(s[4]) && IsHexDigit(s[5]) && IsHexDigit(s[6])
    ensures HashHex(s)
  {
  }

  /** Lower-casing an entry's name gives its key. */
  lemma TableNameLowersToKey(i: nat)
    requires i < |Keys()|
    ensures Lower(Entry(i).name) == Keys()[i]
  {
    NamesLowerToKeys();
  }

  lemma NamesLowerToKeys()
    ensures Lower("Wordle") == "wordle" && Lower("Quordle") == "quordle" && Lower("Colordle") == "colordle"
    ensures Lower("Semantle") == "semantle" && Lower("Phoodle") == "phoodle"
  {
    LowerCapitalised('W', "ordle");
    LowerCapitalised('Q', "uordle");
    LowerCapitalised('C', "olordle");
    LowerCapitalised('S', "emantle");
    LowerCapitalised('P', "hoodle");
  }
}
