/**
 * Concrete command lines and what run makes of them.
 */
module Examples {
  import opened Wrappers
  import opened JavaStrings
  import opened JavaIntegers
  import opened Grammar

  lemma TypeWords()
    ensures ToUpper("od") == "OD" && ToUpper("SVA") == "SVA"
  {
  }

  lemma CommandWords()
    ensures ToUpper("FROM") == "FROM" && ToUpper("from") == "FROM" && ToUpper("FOR") == "FOR"
  {
  }

  lemma Numbers()
    ensures ParseInt("3") == Some(3) && ParseInt("7") == Some(7) && ParseInt("x") == None
  {
  }

  lemma ThreeToSeven()
    ensures Range(3, 7) == [3, 4, 5, 6, 7]
  {
    assert Range(3, 3) == [3];
  }

  /** from 7 to 3 asks for the streams 3 to 7, in ascending order. */
  lemma RangeDownward(token: string)
    ensures ParseArguments([token, "from", "7", "to", "3", "SVA"])
      == Ok(Invocation(token, "SVA", [3, 4, 5, 6, 7]))
  {
    var args := [token, "from", "7", "to", "3", "SVA"];
    assert ParseRange(args[..5]) == Ok([3, 4, 5, 6, 7]) by {
      Numbers();
      ThreeToSeven();
      assert args[..5] == [token, "from", "7", "to", "3"];
      assert EqualsIgnoreCase("to", "TO");
    }
    TypeWords();
    CommandWords();
  }

  /** FROM 3 7, without TO, has too few tokens before the type. */
  lemma RangeTooShort(token: string)
    ensures ParseArguments([token, "FROM", "3", "7", "od"])
      == Err(Rejected(MissingRangeArguments, true))
  {
    TypeWords();
    CommandWords();
  }

  /** Without TO the end bound is the fourth token, and the fifth is not looked at. */
  lemma RangeWithoutTo(token: string)
    ensures ParseArguments([token, "FROM", "3", "7", "x", "od"])
      == Ok(Invocation(token, "OD", [3, 4, 5, 6, 7]))
  {
    var args := [token, "FROM", "3", "7", "x", "od"];
    assert ParseRange(args[..5]) == Ok([3, 4, 5, 6, 7]) by {
      Numbers();
      ThreeToSeven();
      assert args[..5] == [token, "FROM", "3", "7", "x"];
      assert !EqualsIgnoreCase("7", "TO") by {
        ToUpperAt("7");
      }
    }
    TypeWords();
    CommandWords();
  }

  /** A start bound that is not an int is reported as written. */
  lemma BadStart(token: string)
    ensures ParseArguments([token, "FROM", "x", "TO", "7", "od"])
      == Err(Rejected(InvalidStart + "x", true))
  {
    TypeWords();
    CommandWords();
    Numbers();
  }

  /** An end bound that is not an int is reported as written. */
  lemma BadEnd(token: string)
    ensures ParseArguments([token, "FROM", "3", "TO", "x", "od"])
      == Err(Rejected(InvalidEnd + "x", true))
  {
    TypeWords();
    CommandWords();
    Numbers();
    var args := [token, "FROM", "3", "TO", "x", "od"];
    assert EqualsIgnoreCase(args[3], "TO");
    assert ParseRange(args[..5]) == Err(InvalidEnd + "x");
  }

  /** An unknown type is reported upper-cased, before the command is looked at. */
  lemma UnknownType(token: string)
    ensures ParseArguments([token, "between", "[3]", "xyz"])
      == Err(Rejected(UnrecognizedType + "XYZ", true))
  {
    assert ToUpper("xyz") == "XYZ";
  }

  /** An unknown command is reported as written. */
  lemma UnknownCommand(token: string)
    ensures ParseArguments([token, "between", "3", "7", "od"])
      == Err(Rejected(UnrecognizedCommand + "between", true))
  {
    TypeWords();
    assert ToUpper("between") == "BETWEEN";
  }

  /** Fewer than four tokens only show the usage. */
  lemma TooFewTokens(token: string)
    ensures ParseArguments([token, "FOR", "od"]) == Err(Usage)
  {
  }

  /** FOR [] lists no identifiers. */
  lemma EmptyBrackets(token: string)
    ensures ParseArguments([token, "FOR", "[]", "od"])
      == Err(Rejected(NoIdentifiersInList, true))
  {
    TypeWords();
    CommandWords();
    var args := [token, "FOR", "[]", "od"];
    var base := args[..3];
    assert base[2..] == ["[]"];
    assert Trim(JoinTokens(base[2..])) == "[]";
    NothingListed(base);
  }
}
