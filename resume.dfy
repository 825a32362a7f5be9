/** export/resume.py: the village codes an earlier run already wrote to the output file. */
module Resume {
  import opened Wrappers
  import opened Text

  /** What `json.loads` makes of a stripped, non-blank line, as far as the loop looks at it:
      not JSON at all, a JSON value that is not an object, or an object and its
      "village_code" entry (absent when the object has none). */
  datatype Decoded = Malformed | NotAnObject | Object(villageCode: Option<string>)

  /** The JSON decoder, with the parts of its answer the loop uses. */
  type Decoder = string -> Decoded

  /** The code one line contributes: none for a blank line, a malformed line, an object
      without a code or with an empty one. */
  function CodeOfLine(line: string, decode: Decoder): (r: Option<string>)
    ensures r.Some? ==> r.value != "" && Strip(line) != "" && decode(Strip(line)) == Object(r)
    ensures Strip(line) == "" ==> r.None?
    ensures Strip(line) != "" && decode(Strip(line)).Malformed? ==> r.None?
    ensures (Strip(line) != "" && decode(Strip(line)).Object? && decode(Strip(line)).villageCode.Some?
             && decode(Strip(line)).villageCode.value != "") ==> r == decode(Strip(line)).villageCode
  {
    var s := Strip(line);
    if s == "" then None
    else
      match decode(s)
      case Object(Some(code)) => if code != "" then Some(code) else None
      case _ => None
  }

  /** No non-blank line decodes to a JSON value other than an object (on such a line the
      source's `obj.get` raises, and the load aborts). */
  ghost predicate Decodable(lines: seq<string>, decode: Decoder)
  {
    forall i :: 0 <= i < |lines| && Strip(lines[i]) != "" ==> !decode(Strip(lines[i])).NotAnObject?
  }

  /** The codes of all lines read so far. */
  function SeenCodes(lines: seq<string>, decode: Decoder): set<string>
    decreases |lines|
  {
    if lines == [] then {}
    else
      var prev := SeenCodes(lines[..|lines| - 1], decode);
      match CodeOfLine(lines[|lines| - 1], decode)
      case Some(code) => prev + {code}
      case None => prev
  }

  /** `load_seen_village_codes`, from the file's existence and its lines onwards. */
  method LoadSeenVillageCodes(fileExists: bool, lines: seq<string>, decode: Decoder) returns (seen: set<string>)
    requires fileExists ==> Decodable(lines, decode)
    ensures !fileExists ==> seen == {}
    ensures fileExists ==> seen == SeenCodes(lines, decode)
  {
    seen := {};
    if !fileExists {
      return;
    }
    for i := 0 to |lines|
      invariant seen == SeenCodes(lines[..i], decode)
    {
      assert lines[..i + 1][..i] == lines[..i];
      var line := Strip(lines[i]);
      if line == "" {
        continue;
      }
      var obj := decode(line);
      match obj {
        case Malformed =>
        case NotAnObject =>
          assert false;
        case Object(vc) =>
          if vc.Some? && vc.value != "" {
            seen := seen + {vc.value};
          }
      }
    }
    assert lines[..|lines|] == lines;
  }

  /** A code is seen exactly when some line contributes it. */
  lemma {:induction false} SeenCodesExactly(lines: seq<string>, decode: Decoder, code: string)
    ensures code in SeenCodes(lines, decode) <==>
            exists i :: 0 <= i < |lines| && CodeOfLine(lines[i], decode) == Some(code)
    decreases |lines|
  {
    if lines != [] {
      var n := |lines| - 1;
      var init := lines[..n];
      SeenCodesExactly(init, decode, code);
      if code in SeenCodes(lines, decode) {
        if CodeOfLine(lines[n], decode) != Some(code) {
          var i :| 0 <= i < n && CodeOfLine(init[i], decode) == Some(code);
          assert lines[i] == init[i];
        }
      } else {
        forall i | 0 <= i < |lines| ensures CodeOfLine(lines[i], decode) != Some(code) {
          if i < n {
            assert lines[i] == init[i];
          }
        }
      }
    }
  }

  /** Reading more lines adds their codes and takes none away. */
  lemma {:induction false} SeenCodesAppend(lines: seq<string>, more: seq<string>, decode: Decoder)
    ensures SeenCodes(lines + more, decode) == SeenCodes(lines, decode) + SeenCodes(more, decode)
    decreases |more|
  {
    if more == [] {
      assert lines + more == lines;
    } else {
      var m := |more| - 1;
      assert (lines + more)[..|lines + more| - 1] == lines + more[..m];
      assert (lines + more)[|lines + more| - 1] == more[m];
      SeenCodesAppend(lines, more[..m], decode);
    }
  }

  /** One well-formed line with a code and one malformed line give exactly that code. */
  lemma OneValidOneMalformed(valid: string, broken: string, decode: Decoder, code: string)
    requires code != "" && decode(Strip(valid)) == Object(Some(code)) && Strip(valid) != ""
    requires Strip(broken) != "" && decode(Strip(broken)) == Malformed
    ensures SeenCodes([valid, broken], decode) == {code}
    ensures |SeenCodes([valid, broken], decode)| == 1
  {
    assert [valid, broken][..1] == [valid];
    assert [valid][..0] == [];
    assert SeenCodes([valid], decode) == {code};
  }
}
