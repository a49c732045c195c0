/** The keyword entry (components/create/keywords-input.tsx): a list of
    trimmed, non-empty keywords without repeats, grown from the text box and
    shrunk from the badges. */
module KeywordsInput {
  import opened Text
  import opened Collections

  /** Every keyword is non-empty and its own trim, and none repeats. */
  predicate WellFormed(keywords: seq<string>)
  {
    && Distinct(keywords)
    && forall i :: 0 <= i < |keywords| ==> keywords[i] != "" && Trim(keywords[i]) == keywords[i]
  }

  /** The list and the text box after `addKeyword`. */
  datatype Entry = Entry(keywords: seq<string>, input: string)

  /** `addKeyword`: the trimmed text is appended and the box cleared, unless
      it is blank or already listed; then nothing changes. */
  function AddKeyword(e: Entry): (r: Entry)
    ensures |e.keywords| <= |r.keywords| <= |e.keywords| + 1
    ensures r.keywords[..|e.keywords|] == e.keywords
    ensures forall x :: x in r.keywords <==> x in e.keywords || (x == Trim(e.input) && x != "")
    ensures |r.keywords| == |e.keywords| ==> r == e
    ensures |r.keywords| > |e.keywords| ==> r.input == ""
  {
    var trimmed := Trim(e.input);
    if trimmed != "" && trimmed !in e.keywords then Entry(e.keywords + [trimmed], "") else e
  }

  /** Adding keeps the list well formed. */
  lemma AddKeepsWellFormed(e: Entry)
    requires WellFormed(e.keywords)
    ensures WellFormed(AddKeyword(e).keywords)
  {
    var t := Trim(e.input);
    if t != "" && t !in e.keywords {
      TrimIdempotent(e.input);
      var r := e.keywords + [t];
      assert r[|e.keywords|] == t;
      forall i | 0 <= i < |e.keywords| ensures r[i] == e.keywords[i] != t {
      }
    }
  }

  /** Removing keeps the list well formed. */
  lemma RemoveKeepsWellFormed(keywords: seq<string>, k: string)
    requires WellFormed(keywords)
    ensures WellFormed(Without(keywords, k))
  {
    var r := Without(keywords, k);
    forall i | 0 <= i < |r| ensures r[i] != "" && Trim(r[i]) == r[i] {
      assert r[i] in keywords;
    }
  }

  /** Adding a new keyword and removing it again gives the list back. */
  lemma AddThenRemove(e: Entry)
    requires Distinct(e.keywords)
    requires Trim(e.input) != "" && Trim(e.input) !in e.keywords
    ensures Without(AddKeyword(e).keywords, Trim(e.input)) == e.keywords
  {
    WithoutLast(e.keywords, Trim(e.input));
    WithoutAbsent(e.keywords, Trim(e.input));
  }

  class KeywordsInput {
    var inputValue: string
    var keywords: seq<string>

    predicate Valid()
      reads this
    {
      WellFormed(keywords)
    }

    constructor ()
      ensures Valid() && inputValue == "" && keywords == []
    {
      inputValue, keywords := "", [];
    }

    /** The text box's `onChange`. */
    method SetInput(value: string)
      modifies this
      ensures inputValue == value && keywords == old(keywords)
    {
      inputValue := value;
    }

    /** `addKeyword`, from the button or the Enter key. */
    method Add()
      requires Valid()
      modifies this
      ensures Valid()
      ensures Entry(keywords, inputValue) == AddKeyword(Entry(old(keywords), old(inputValue)))
    {
      AddKeepsWellFormed(Entry(keywords, inputValue));
      var trimmed := Trim(inputValue);
      if trimmed != "" && trimmed !in keywords {
        keywords := keywords + [trimmed];
        inputValue := "";
      }
    }

    /** `removeKeyword(k)`: `keywords.filter((x) => x !== k)`. */
    method Remove(k: string)
      requires Valid()
      modifies this
      ensures Valid()
      ensures keywords == Without(old(keywords), k) && inputValue == old(inputValue)
    {
      RemoveKeepsWellFormed(keywords, k);
      keywords := Without(keywords, k);
    }
  }
}
