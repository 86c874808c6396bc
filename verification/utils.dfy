/** `ToSnakeCase`: the white-space separated words of the input, lower-cased, joined with "_". */
module Utils {
  import opened GoStrings

  /** Every word lower-cased, in order. */
  function LowerAll(words: seq<string>): (r: seq<string>)
    ensures |r| == |words|
    ensures forall i :: 0 <= i < |words| ==> r[i] == ToLower(words[i])
  {
    seq(|words|, i requires 0 <= i < |words| => ToLower(words[i]))
  }

  /** The value `ToSnakeCase` computes. */
  function SnakeCase(input: string): string {
    Join(LowerAll(Fields(input)), "_")
  }

  /**
   * The Go function: split into fields, lower-case each field in place, join
   * with "_".
   */
  method ToSnakeCase(input: string) returns (r: string)
    ensures r == SnakeCase(input)
    ensures NoSpace(r)
  {
    var words := Fields(input);
    ghost var fields := words;
    var i := 0;
    while i < |words|
      invariant 0 <= i <= |words| == |fields|
      invariant forall k :: 0 <= k < i ==> words[k] == ToLower(fields[k])
      invariant forall k :: i <= k < |words| ==> words[k] == fields[k]
    {
      words := words[i := ToLower(words[i])];
      i := i + 1;
    }
    assert words == LowerAll(fields);
    r := Join(words, "_");
    SnakeCaseWords(input);
  }

  predicate IsLowered(c: char) {
    ToLowerChar(c) == c
  }

  /** The words of the result are non-empty, lower-case and free of white space. */
  lemma LoweredWords(input: string)
    ensures forall i :: 0 <= i < |LowerAll(Fields(input))| ==>
              |LowerAll(Fields(input))[i]| > 0 && NoSpace(LowerAll(Fields(input))[i])
    ensures forall i, j :: 0 <= i < |LowerAll(Fields(input))| && 0 <= j < |LowerAll(Fields(input))[i]| ==>
              IsLowered(LowerAll(Fields(input))[i][j])
  {
    var ws := Fields(input);
    FieldsAreWords(input);
    forall i | 0 <= i < |ws|
      ensures |ToLower(ws[i])| > 0 && NoSpace(ToLower(ws[i]))
    {
      ToLowerKeepsSpaces(ws[i]);
    }
  }

  /** The result holds no white space and only lower-case letters among ASCII capitals. */
  lemma SnakeCaseWords(input: string)
    ensures NoSpace(SnakeCase(input))
    ensures forall k :: 0 <= k < |SnakeCase(input)| ==> IsLowered(SnakeCase(input)[k])
  {
    var ws := LowerAll(Fields(input));
    LoweredWords(input);
    JoinKeeps(ws, "_", c => !IsSpace(c));
    JoinKeeps(ws, "_", IsLowered);
  }

  /** Empty and all-white-space inputs, and only those, give "". */
  lemma SnakeCaseEmpty(input: string)
    ensures SnakeCase(input) == "" <==> AllSpace(input)
  {
    LoweredWords(input);
    JoinEmpty(LowerAll(Fields(input)), "_");
    FieldsEmptyIff(input);
  }

  /**
   * Splitting the result at "_" gives back the input's words, lower-cased and
   * in order, when no word contains "_" and the input is not all white space.
   */
  lemma SnakeCaseSplits(input: string)
    requires !AllSpace(input)
    requires forall i :: 0 <= i < |Fields(input)| ==> '_' !in Fields(input)[i]
    ensures Split(SnakeCase(input), '_') == LowerAll(Fields(input))
  {
    var ws := LowerAll(Fields(input));
    FieldsEmptyIff(input);
    SplitJoin(ws, '_');
  }

  /** Converting twice is the same as converting once. */
  lemma SnakeCaseIdempotent(input: string)
    ensures SnakeCase(SnakeCase(input)) == SnakeCase(input)
  {
    var s := SnakeCase(input);
    SnakeCaseWords(input);
    if s == [] {
      assert Fields(s) == [];
    } else {
      FieldsOfSingleWord(s);
      assert ToLower(s) == s;
      assert LowerAll([s]) == [s];
    }
  }

  lemma FieldsOfLightBlue()
    ensures Fields("Light Blue") == ["Light", "Blue"]
  {
    FieldsOfSingleWord("Blue");
    assert "Light Blue" == "Light" + " " + "Blue";
    FieldsOfWordSpace("Light", "Blue");
  }

  lemma LowerLightBlue()
    ensures LowerAll(["Light", "Blue"]) == ["light", "blue"]
  {
    var light := ToLower("Light");
    assert light == "light" by {
      assert light[0] == ToLowerChar('L');
    }
    var blue := ToLower("Blue");
    assert blue == "blue" by {
      assert blue[0] == ToLowerChar('B');
    }
  }

  /** The colour name "Light Blue" becomes "light_blue". */
  lemma SnakeCaseLightBlue()
    ensures SnakeCase("Light Blue") == "light_blue"
  {
    FieldsOfLightBlue();
    LowerLightBlue();
    assert Join(["light", "blue"], "_") == "light" + "_" + "blue";
  }
}
