/** What `parse_string` promises: the priority of its three rules, and the escaping it undoes. */
module ParseProperties {
  import opened Transit
  import opened Values
  import opened DecodeSpec

  /** Every key of the table begins with ESC, as every built-in prefix and tag does. */
  predicate EscapedKeys(t: DecoderTable) {
    forall k :: k in t ==> |k| >= 1 && k[0] == ESC[0]
  }

  /**
   * The escaping that the escaped-literal rule undoes: ESC is put before a
   * string beginning with ESC or SUB.  The result passes the escaped-literal
   * test exactly when the string needed escaping, and then dropping its first
   * character gives the string back; otherwise it is the string itself.
   */
  function EscapeLiteral(s: string): (e: string)
    ensures IsEscaped(e) <==> |s| > 0 && (s[0] == ESC[0] || s[0] == SUB[0])
    ensures IsEscaped(e) ==> e[1..] == s
    ensures !IsEscaped(e) ==> e == s
  {
    if |s| > 0 && (s[0] == ESC[0] || s[0] == SUB[0]) then ESC + s else s
  }

  /**
   * An escaped literal loses exactly its leading ESC, even when the table
   * binds its first two characters and the rest looks like a directive.
   */
  lemma EscapedLiteralWins(t: DecoderTable, marker: char, rest: string)
    requires PrefixSafe(t)
    requires marker == ESC[0] || marker == SUB[0]
    ensures ParseString(t, ESC + [marker] + rest) == VStr([marker] + rest)
  {
    assert (ESC + [marker] + rest)[1..] == [marker] + rest;
  }

  /**
   * A string that is not an escaped literal and whose first two characters
   * are bound in the table goes to that decoder with the characters from
   * index 2 on; unbound, it is returned unchanged.
   */
  lemma DirectiveOrPlain(t: DecoderTable, s: string)
    requires PrefixSafe(t) && !IsEscaped(s)
    ensures |s| >= 2 && s[..2] in t ==> ParseString(t, s) == ApplyScalar(t[s[..2]], Str(s[2..]))
    ensures Prefix2(s) !in t ==> ParseString(t, s) == VStr(s)
  {
  }

  /**
   * Under a table whose only short keys are ESC followed by one of `:bdfc$tur`,
   * as in the default table, a string that is not an escaped literal and whose
   * second character is none of those comes back unchanged.
   */
  lemma UnboundPrefixLiteral(t: DecoderTable, s: string)
    requires PrefixSafe(t)
    requires forall k :: k in t ==> |k| >= 2
    requires forall k :: k in t && |k| == 2 ==> k[1] in ":bdfc$tur"
    requires !IsEscaped(s) && (|s| >= 2 ==> s[1] !in ":bdfc$tur")
    ensures ParseString(t, s) == VStr(s)
  {
    if |s| >= 2 {
      assert Prefix2(s)[1] == s[1];
    }
  }

  /** `~i` is not a built-in prefix, so `~i42` is a plain string. */
  lemma UnregisteredPrefixStaysLiteral()
    ensures ParseString(DefaultDecoders(), "~i42") == VStr("~i42")
  {
    assert !IsEscaped("~i42") && "~i42"[1] !in ":bdfc$tur" by { assert "~i42"[1] == 'i'; }
    DefaultDecodersShape();
    UnboundPrefixLiteral(DefaultDecoders(), "~i42");
  }

  /**
   * Under any table, a string that is not an escaped literal and whose first
   * two characters are bound to a scalar parser goes to that parser with the
   * characters from index 2 on.
   */
  lemma ScalarPrefixSelected(t: DecoderTable, s: string)
    requires PrefixSafe(t)
    requires |s| >= 2 && s[..2] in t && t[s[..2]].ScalarFn? && !IsEscaped(s)
    ensures ParseString(t, s) == Scalar(t[s[..2]].kind, Str(s[2..]))
  {
  }

  /** Each built-in scalar prefix hands the rest of the string to the parser of its kind. */
  lemma BuiltinPrefixDecodes(s: string)
    requires |s| >= 2 && s[0] == ESC[0] && PrefixKind(s[1]).Some?
    ensures ParseString(DefaultDecoders(), s) == Scalar(PrefixKind(s[1]).value, Str(s[2..]))
  {
    assert !IsEscaped(s) by { assert PrefixKind(ESC[0]).None? && PrefixKind(SUB[0]).None?; }
    ScalarPrefixesByMarker(s[..2]);
    DefaultDecodersShape();
    StructuralTagsShape();
    assert s[..2] !in StructuralTags();
    ScalarPrefixSelected(DefaultDecoders(), s);
  }

  /**
   * Under a table whose keys all begin with ESC, parsing undoes escaping:
   * every string comes back from its escaped form unchanged.
   */
  lemma EscapeRoundTrip(t: DecoderTable, s: string)
    requires PrefixSafe(t) && EscapedKeys(t)
    ensures ParseString(t, EscapeLiteral(s)) == VStr(s)
  {
    var e := EscapeLiteral(s);
    if e != s {
      assert IsEscaped(e) && e[1..] == s;
    } else {
      assert !IsEscaped(e);
      forall k | k in t
        ensures k != Prefix2(e)
      {
        if e != [] {
          assert Prefix2(e)[0] == e[0];
        }
      }
    }
  }

  /**
   * Finding, as written: with the line-anchored test, the multi-line string
   * "a\n~~b", which escaping leaves alone, parses to "\n~~b" under any table
   * whose keys begin with ESC, the default table among them; the corrected
   * test gives the string back.
   */
  lemma MultilineEscapeMisfires(t: DecoderTable)
    requires PrefixSafe(t) && EscapedKeys(t)
    ensures EscapeLiteral("a\n~~b") == "a\n~~b"
    ensures IsEscapedAsWritten("a\n~~b") && !IsEscaped("a\n~~b")
    ensures ParseStringAsWritten(t, EscapeLiteral("a\n~~b")) == VStr("\n~~b")
    ensures ParseString(t, EscapeLiteral("a\n~~b")) == VStr("a\n~~b")
  {
    var s := "a\n~~b";
    assert s[1] == '\n' && IsEscaped(s[2..]);
    EscapeRoundTrip(t, s);
  }

  /**
   * Finding, as written, on a directive: under any table the line-anchored
   * test reads the keyword string "~:a\n~~b" back as the plain string
   * ":a\n~~b".
   */
  lemma MultilineKeywordMisfires(t: DecoderTable)
    requires PrefixSafe(t)
    ensures ParseStringAsWritten(t, "~:a\n~~b") == VStr(":a\n~~b")
  {
    var s := "~:a\n~~b";
    assert s[3] == '\n' && IsEscaped(s[4..]);
  }

  /** The corrected test hands the same string to the keyword parser, with "a\n~~b". */
  lemma MultilineKeywordCorrected()
    ensures ParseString(DefaultDecoders(), "~:a\n~~b") == Scalar(Keyword, Str("a\n~~b"))
  {
    var s := "~:a\n~~b";
    assert s[1] == ':' && s[2..] == "a\n~~b";
    BuiltinPrefixDecodes(s);
  }

  /** The two tests differ only on multi-line strings. */
  lemma AsWrittenAgreesOnSingleLine(t: DecoderTable, s: string)
    requires PrefixSafe(t) && '\n' !in s
    ensures IsEscapedAsWritten(s) == IsEscaped(s)
    ensures ParseStringAsWritten(t, s) == ParseString(t, s)
  {
    if IsEscapedAsWritten(s) {
      var i :| 0 <= i < |s| && (i == 0 || s[i - 1] == '\n') && IsEscaped(s[i..]);
      assert forall j :: 0 <= j < |s| ==> s[j] != '\n';
      assert i == 0;
    }
    if IsEscaped(s) {
      assert s[0..] == s;
    }
  }
}
