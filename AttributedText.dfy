/**
  Attributed strings as the caption view sees them: a sequence of runs, each
  a piece of text with the attribute map that applies to all of its
  characters, and the helper that gives a caption its default style when
  the caller supplied plain text.
 */
module AttributedText {

  datatype Option<+T> = None | Some(value: T)

  /** An attribute value such as a font or a colour.  The caption view never
      looks inside one, so a value is only an opaque token. */
  datatype AttributeValue = AttributeValue(token: nat)

  type AttributeName = string

  type Attributes = map<AttributeName, AttributeValue>

  datatype Run = Run(text: string, attributes: Attributes)

  type AttributedString = seq<Run>

  /** The plain characters of an attributed string (its `string` property). */
  function Characters(s: AttributedString): string
  {
    if s == [] then [] else s[0].text + Characters(s[1..])
  }

  /** The attribute map in force at each character, in character order. */
  function CharacterAttributes(s: AttributedString): (r: seq<Attributes>)
    ensures |r| == |Characters(s)|
  {
    if s == [] then [] else seq(|s[0].text|, _ => s[0].attributes) + CharacterAttributes(s[1..])
  }

  /** Some character carries at least one attribute.  Enumerating the
      attributes of a string visits only the runs that cover characters, so a
      run without text is never seen. */
  predicate HasAttributes(s: AttributedString)
  {
    exists i :: 0 <= i < |s| && s[i].text != [] && s[i].attributes != map[]
  }

  /** Adds `attrs` over the whole range, overriding attributes of the same
      name: the characters stay as they are and every character's attributes
      become its old ones merged with `attrs`. */
  function AddAttributes(s: AttributedString, attrs: Attributes): (r: AttributedString)
    ensures |r| == |s|
    ensures forall i :: 0 <= i < |s| ==> r[i].text == s[i].text && r[i].attributes == s[i].attributes + attrs
    ensures Characters(r) == Characters(s)
    ensures forall k :: 0 <= k < |CharacterAttributes(s)| ==> CharacterAttributes(r)[k] == CharacterAttributes(s)[k] + attrs
  {
    if s == [] then []
    else
      var first := Run(s[0].text, s[0].attributes + attrs);
      var rest := AddAttributes(s[1..], attrs);
      assert ([first] + rest)[1..] == rest;
      [first] + rest
  }

  /** Enumerates the attribute runs of `s` and stops at the first run that
      carries any attribute. */
  method ContainsAttributes(s: AttributedString) returns (contains: bool)
    ensures contains <==> HasAttributes(s)
  {
    contains := false;
    var i := 0;
    while i < |s| && !contains
      invariant 0 <= i <= |s|
      invariant contains ==> 0 < i && s[i - 1].text != [] && s[i - 1].attributes != map[]
      invariant !contains ==> forall j :: 0 <= j < i ==> s[j].text == [] || s[j].attributes == map[]
    {
      if s[i].text != [] && |s[i].attributes| > 0 {
        contains := true;
      }
      i := i + 1;
    }
  }

  /** A string in which no run with text carries an attribute has no
      attribute on any character. */
  lemma {:induction false} PlainHasNoCharacterAttributes(s: AttributedString)
    requires !HasAttributes(s)
    ensures forall k :: 0 <= k < |CharacterAttributes(s)| ==> CharacterAttributes(s)[k] == map[]
  {
    if s != [] {
      assert forall i :: 0 <= i < |s[1..]| ==> s[1..][i] == s[i + 1];
      PlainHasNoCharacterAttributes(s[1..]);
      if s[0].text != [] {
        assert s[0].attributes == map[];
      }
    }
  }

  /** The caption's text with its default style: nil stays nil, a string that
      already carries any attribute is returned as it is, and a plain string
      gets `defaults` over its whole range. */
  function WithDefaults(defaults: Attributes, s: Option<AttributedString>): (r: Option<AttributedString>)
    ensures s.None? ==> r.None?
    ensures s.Some? ==> r.Some? && Characters(r.value) == Characters(s.value)
    ensures s.Some? && HasAttributes(s.value) ==> r == s
    ensures s.Some? && !HasAttributes(s.value) ==>
      forall k :: 0 <= k < |Characters(s.value)| ==> CharacterAttributes(r.value)[k] == defaults
  {
    match s
    case None => None
    case Some(str) =>
      if HasAttributes(str) then s
      else
        PlainHasNoCharacterAttributes(str);
        Some(AddAttributes(str, defaults))
  }

  /** Applying the defaults a second time changes nothing. */
  lemma WithDefaultsIdempotent(defaults: Attributes, s: Option<AttributedString>)
    ensures WithDefaults(defaults, WithDefaults(defaults, s)) == WithDefaults(defaults, s)
  {
    if s.Some? && !HasAttributes(s.value) {
      var once := AddAttributes(s.value, defaults);
      if !HasAttributes(once) {
        var twice := AddAttributes(once, defaults);
        forall i | 0 <= i < |twice|
          ensures twice[i] == once[i]
        {
          var m := s.value[i].attributes;
          assert twice[i].attributes == m + defaults + defaults;
          assert m + defaults + defaults == m + defaults;
        }
        assert twice == once;
      }
    }
  }
}
