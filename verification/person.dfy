/** A plotted person: identity, name, palette index, normalized position on
    the curve and the name tag's vertical offset. */
module People {
  import opened Geometry
  import opened Text
  import opened Theme

  /** `UUID()` is modelled as an opaque natural number supplied by the caller. */
  type PersonId = nat

  datatype Person = Person(id: PersonId, name: string, colorIndex: int, position: Point, tagOffset: real)

  /** The memberwise initializer with the default `tagOffset`. */
  function NewPerson(id: PersonId, name: string, colorIndex: int, position: Point): (p: Person)
    ensures p.tagOffset == 0.0
    ensures p.id == id && p.name == name && p.colorIndex == colorIndex && p.position == position
  {
    Person(id, name, colorIndex, position, 0.0)
  }

  /** Two initials when the name has at least two space-separated words,
      otherwise the first two characters of the name, uppercased. */
  function Initials(p: Person): (r: string)
    ensures |r| <= 2
    ensures forall i :: 0 <= i < |r| ==> !('a' <= r[i] <= 'z')
  {
    var parts := SplitSpaces(p.name);
    if |parts| >= 2 then Upper([parts[0][0]] + [parts[1][0]])
    else Upper(p.name[..MinInt(2, |p.name|)])
  }

  /** With two or more words, the initials are the uppercased first letters
      of the first two words; the first of them is the first non-space
      character of the name. */
  lemma InitialsOfTwoWords(p: Person)
    requires |SplitSpaces(p.name)| >= 2
    ensures var parts := SplitSpaces(p.name);
            Initials(p) == [UpperChar(parts[0][0]), UpperChar(parts[1][0])]
    ensures FirstNonSpace(p.name) < |p.name|
    ensures Initials(p)[0] == UpperChar(p.name[FirstNonSpace(p.name)])
  {
    SplitSpacesFirst(p.name);
  }

  /** For a name made of two words separated by a space, possibly followed
      by more words, the initials are the first letters of those two words. */
  lemma InitialsOfNamedWords(p: Person, first: string, second: string, rest: string)
    requires first != [] && ' ' !in first && second != [] && ' ' !in second
    requires p.name == first + [' '] + second + [' '] + rest || p.name == first + [' '] + second
    ensures Initials(p) == [UpperChar(first[0]), UpperChar(second[0])]
  {
    if p.name == first + [' '] + second + [' '] + rest {
      assert p.name == first + [' '] + (second + [' '] + rest);
      SplitSpacesWords(first, second + [' '] + rest);
      SplitSpacesWords(second, rest);
    } else {
      SplitSpacesWords(first, second);
      SplitSpacesWords(second, []);
    }
    InitialsOfTwoWords(p);
  }

  /** Otherwise the initials are the uppercased first two characters of the
      raw name (fewer if the name is shorter), spaces included. */
  lemma InitialsOfOneWord(p: Person)
    requires |SplitSpaces(p.name)| < 2
    ensures Initials(p) == Upper(p.name)[..MinInt(2, |p.name|)]
    ensures |p.name| >= 2 ==> |Initials(p)| == 2
  {
    UpperPrefix(p.name, MinInt(2, |p.name|));
  }

  /** `color(in:)` reads the theme's cycling palette at the person's index. */
  function ColorIn(p: Person, theme: ChartTheme): (c: Color)
    requires |theme.markerColors| > 0 && p.colorIndex >= 0
    ensures c in theme.markerColors
    ensures c == MarkerColor(theme, p.colorIndex % |theme.markerColors|)
  {
    MarkerColor(theme, p.colorIndex)
  }
}
