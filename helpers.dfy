/** The client's string and value helpers: `capitalize`, `truncate`, `isEmpty` and `getInitials`. */
module Helpers {
  import opened JsString

  /** `str.charAt(0).toUpperCase() + str.slice(1)`. */
  function Capitalize(s: string): string {
    ToUpper(FirstChar(s)) + Slice(s, 1, |s|)
  }

  /** Only the first character changes, to its upper case; the length is kept, "" stays "", and a second call changes nothing. */
  lemma CapitalizeEffect(s: string)
    ensures |Capitalize(s)| == |s|
    ensures |s| > 0 ==> Capitalize(s)[0] == UpperChar(s[0]) && Capitalize(s)[1..] == s[1..]
    ensures s == "" ==> Capitalize(s) == ""
    ensures Capitalize(Capitalize(s)) == Capitalize(s)
  {
    if |s| > 0 {
      assert Slice(s, 1, |s|) == s[1..];
      var c := Capitalize(s);
      assert Slice(c, 1, |c|) == c[1..];
    }
  }

  /** `truncate(str, maxLength)`: the input when short enough, else `str.slice(0, maxLength - 3) + '...'`. */
  function Truncate(s: string, maxLength: int): string {
    if |s| <= maxLength then s else Slice(s, 0, maxLength - 3) + "..."
  }

  /** A string within the limit comes back unchanged. */
  lemma TruncateShort(s: string, maxLength: int)
    requires |s| <= maxLength
    ensures Truncate(s, maxLength) == s
  {
  }

  /** With room for the ellipsis, a longer string keeps its first `maxLength - 3` characters and ends up exactly `maxLength` long. */
  lemma TruncateLong(s: string, maxLength: int)
    requires maxLength >= 3 && |s| > maxLength
    ensures Truncate(s, maxLength) == s[..maxLength - 3] + "..."
    ensures |Truncate(s, maxLength)| == maxLength
    ensures Truncate(Truncate(s, maxLength), maxLength) == Truncate(s, maxLength)
  {
  }

  /**
   * Below 3 the negative slice end counts from the end of the string, so the
   * result keeps all but `3 - maxLength` characters and is longer than `maxLength`.
   */
  lemma TruncateBelowEllipsis(s: string, maxLength: int)
    requires maxLength < 3 && |s| > maxLength
    ensures var keep := if |s| + maxLength - 3 < 0 then 0 else |s| + maxLength - 3;
      Truncate(s, maxLength) == s[..keep] + "..."
    ensures |Truncate(s, maxLength)| > maxLength
  {
  }

  /** The values `isEmpty` distinguishes; an object is represented by its own enumerable keys. */
  datatype JsValue =
    | Null
    | Undefined
    | Str(s: string)
    | Arr(elements: seq<JsValue>)
    | Obj(keys: set<string>)
    | Num(n: int)
    | Bool(b: bool)
    | Func

  function IsEmpty(v: JsValue): bool {
    match v
    case Null => true
    case Undefined => true
    case Str(s) => |Trim(s)| == 0
    case Arr(xs) => |xs| == 0
    case Obj(keys) => |keys| == 0
    case _ => false
  }

  /** A string is empty iff it is whitespace only; null and undefined are empty, numbers, booleans and functions never. */
  lemma IsEmptyCases(v: JsValue)
    ensures v.Str? ==> (IsEmpty(v) <==> AllWhitespace(v.s))
    ensures v.Null? || v.Undefined? ==> IsEmpty(v)
    ensures v.Num? || v.Bool? || v.Func? ==> !IsEmpty(v)
    ensures v.Arr? ==> (IsEmpty(v) <==> v.elements == [])
    ensures v.Obj? ==> (IsEmpty(v) <==> v.keys == {})
  {
    if v.Str? {
      TrimEmptyIff(v.s);
    }
  }

  /** The upper-cased first character of each piece. */
  function PieceInitials(pieces: seq<string>): (r: seq<string>)
    ensures |r| == |pieces|
    ensures forall i :: 0 <= i < |r| ==> r[i] == ToUpper(FirstChar(pieces[i]))
  {
    seq(|pieces|, i requires 0 <= i < |pieces| => ToUpper(FirstChar(pieces[i])))
  }

  /** `name.split(' ').map(w => w.charAt(0).toUpperCase()).slice(0, 2).join('')`. */
  function GetInitials(name: string): string {
    var initials := PieceInitials(Split(name, ' '));
    Join(if |initials| <= 2 then initials else initials[..2], "")
  }

  /**
   * The initials are the upper-cased first characters of the first two space-separated
   * pieces (a piece may be empty), so at most two characters.
   */
  lemma GetInitialsShape(name: string)
    ensures var pieces := Split(name, ' ');
      GetInitials(name) == ToUpper(FirstChar(pieces[0])) + (if |pieces| >= 2 then ToUpper(FirstChar(pieces[1])) else "")
    ensures |GetInitials(name)| <= 2
  {
    var pieces := Split(name, ' ');
    var initials := PieceInitials(pieces);
    assert |FirstChar(pieces[0])| <= 1;
    if |pieces| >= 2 {
      var two := initials[..2];
      assert (if |initials| <= 2 then initials else initials[..2]) == two;
      assert Join(two, "") == two[0] + "" + Join(two[1..], "");
      assert Join(two[1..], "") == two[1];
      assert |FirstChar(pieces[1])| <= 1;
    } else {
      assert initials == [initials[0]];
    }
  }

  /** A double space leaves an empty piece that still takes the second slot. */
  lemma InitialsOfDoubleSpace()
    ensures GetInitials("a  b") == "A"
  {
    var s := "a  b";
    assert s[1] == ' ' && ' ' !in s[..1];
    SplitFirst(s, ' ', 1);
    assert s[2..][0] == ' ' && ' ' !in s[2..][..0];
    SplitFirst(s[2..], ' ', 0);
    GetInitialsShape(s);
    assert Split(s, ' ')[0] == "a" && Split(s, ' ')[1] == "";
  }
}
