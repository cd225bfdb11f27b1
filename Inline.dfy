/** The inline rewriter: every `gettext("…")` call found in a source file
    has its message sent to the translation service, and the call is
    rewritten with the answer. The regular expression that finds the calls
    is not modelled: its matches come in as a list of captures. */
module Inline {
  import opened Common

  /* ---------------- `str::replace` ---------------- */

  /** `s.replace(pat, rep)`: every occurrence of `pat`, found left to right
      without overlap, becomes `rep`. An empty `pat` matches at every
      character boundary, so `rep` is put before each character and at the
      end. */
  function ReplaceAll(s: string, pat: string, rep: string): (r: string)
    ensures |pat| == |rep| ==> |r| == |s|
    ensures pat != [] && |s| < |pat| ==> r == s
    decreases |s|
  {
    if pat == [] then
      if s == [] then rep else rep + [s[0]] + ReplaceAll(s[1..], pat, rep)
    else if s == [] then []
    else if StartsWith(s, pat) then rep + ReplaceAll(s[|pat|..], pat, rep)
    else [s[0]] + ReplaceAll(s[1..], pat, rep)
  }

  /** `pat` occurs in `s` at position `i`. */
  predicate OccursAt(s: string, pat: string, i: int)
  {
    0 <= i && i + |pat| <= |s| && s[i..i + |pat|] == pat
  }

  /** `pat` occurs somewhere in `s`. */
  predicate Occurs(s: string, pat: string)
  {
    exists i :: 0 <= i <= |s| && OccursAt(s, pat, i)
  }

  /** Replacing a text by itself changes nothing, the empty text included. */
  lemma {:induction false} ReplaceAllIdentity(s: string, pat: string)
    ensures ReplaceAll(s, pat, pat) == s
    decreases |s|
  {
    if s != [] {
      if pat == [] {
        ReplaceAllIdentity(s[1..], pat);
      } else if StartsWith(s, pat) {
        ReplaceAllIdentity(s[|pat|..], pat);
        assert s == pat + s[|pat|..];
      } else {
        ReplaceAllIdentity(s[1..], pat);
        assert s == [s[0]] + s[1..];
      }
    }
  }

  /** A text in which a non-empty pattern does not occur is left as it is. */
  lemma {:induction false} ReplaceAllAbsent(s: string, pat: string, rep: string)
    requires pat != [] && !Occurs(s, pat)
    ensures ReplaceAll(s, pat, rep) == s
    decreases |s|
  {
    if s != [] {
      assert !StartsWith(s, pat) by {
        assert !OccursAt(s, pat, 0);
      }
      assert !Occurs(s[1..], pat) by {
        if Occurs(s[1..], pat) {
          var t := s[1..];
          var i :| 0 <= i <= |t| && OccursAt(t, pat, i);
          assert t[i..i + |pat|] == s[i + 1..i + 1 + |pat|];
          assert OccursAt(s, pat, i + 1);
        }
      }
      ReplaceAllAbsent(s[1..], pat, rep);
      assert s == [s[0]] + s[1..];
    }
  }

  /** Where the text starts with the pattern, the replacement goes first. */
  lemma ReplaceAllAtStart(pat: string, rest: string, rep: string)
    requires pat != []
    ensures ReplaceAll(pat + rest, pat, rep) == rep + ReplaceAll(rest, pat, rep)
  {
    assert (pat + rest)[..|pat|] == pat;
    assert (pat + rest)[|pat|..] == rest;
  }

  /* ---------------- `translate_gettext_strings` ---------------- */

  /** One match of the gettext pattern: the whole call (`cap[0]`) and the
      quoted message inside it (`cap[1]`). */
  datatype Capture = Capture(whole: string, payload: string)

  /** The translation service for one message. */
  type TranslateText = string -> Result<string>

  /** The text of the loop: the working copy and whether any call changed. */
  datatype Rewritten = Rewritten(content: string, changed: bool)

  /** The call as rebuilt from its translation: every occurrence of the
      message inside the call is replaced, quoted or not. */
  function RewriteCall(cap: Capture, translation: string): string
  {
    ReplaceAll(cap.whole, cap.payload, translation)
  }

  /** The service answers for this capture and the rebuilt call differs. */
  predicate CallChanges(cap: Capture, translate: TranslateText)
  {
    translate(cap.payload).Ok? && RewriteCall(cap, translate(cap.payload).value) != cap.whole
  }

  /** The loop from the capture `caps[0]` on, with working copy `modified`
      and flag `changed`. Each changed call has all its occurrences in the
      working copy replaced; the first failing translation ends the loop. */
  function RewriteFrom(modified: string, changed: bool, caps: seq<Capture>, translate: TranslateText): (r: Result<Rewritten>)
    ensures r.Ok? ==> (r.value.changed <==> changed || exists k :: 0 <= k < |caps| && CallChanges(caps[k], translate))
    ensures r.Err? <==> exists k :: 0 <= k < |caps| && translate(caps[k].payload).Err?
    // a run in which no call changes leaves the working copy alone
    ensures r.Ok? && !r.value.changed ==> r.value.content == modified
    decreases |caps|
  {
    if caps == [] then Ok(Rewritten(modified, changed))
    else
      var cap := caps[0];
      assert forall k :: 1 <= k < |caps| ==> caps[k] == caps[1..][k - 1];
      match translate(cap.payload)
      case Err(e) => Err(e)
      case Ok(t) =>
        var newText := RewriteCall(cap, t);
        if cap.whole != newText then
          RewriteFrom(ReplaceAll(modified, cap.whole, newText), true, caps[1..], translate)
        else
          RewriteFrom(modified, changed, caps[1..], translate)
  }

  /** `translate_gettext_strings`: the captures are taken from the original
      content and walked in order, while the rewriting happens on a working
      copy. */
  method TranslateGettextStrings(content: string, captures: seq<Capture>, translate: TranslateText)
    returns (r: Result<Rewritten>)
    ensures r == RewriteFrom(content, false, captures, translate)
    ensures captures == [] ==> r == Ok(Rewritten(content, false))
  {
    var modified := content;
    var anyChanges := false;
    var i := 0;
    while i < |captures|
      invariant 0 <= i <= |captures|
      invariant RewriteFrom(modified, anyChanges, captures[i..], translate)
                == RewriteFrom(content, false, captures, translate)
    {
      var original := captures[i].whole;
      var text := captures[i].payload;
      assert captures[i..][1..] == captures[i + 1..];
      var translation := translate(text);
      if translation.Err? {
        return Err(translation.error);
      }
      var newText := ReplaceAll(original, text, translation.value);
      if original != newText {
        anyChanges := true;
        modified := ReplaceAll(modified, original, newText);
      }
      i := i + 1;
    }
    return Ok(Rewritten(modified, anyChanges));
  }

  /** A service that answers every message with the message itself changes
      nothing: no call is rebuilt differently, so the content comes back as
      it was and no change is reported. */
  lemma {:induction false} EchoTranslationChangesNothing(modified: string, changed: bool, caps: seq<Capture>, translate: TranslateText)
    requires forall k :: 0 <= k < |caps| ==> translate(caps[k].payload) == Ok(caps[k].payload)
    ensures RewriteFrom(modified, changed, caps, translate) == Ok(Rewritten(modified, changed))
    decreases |caps|
  {
    if caps != [] {
      ReplaceAllIdentity(caps[0].whole, caps[0].payload);
      assert forall k :: 1 <= k < |caps| ==> caps[k] == caps[1..][k - 1];
      EchoTranslationChangesNothing(modified, changed, caps[1..], translate);
    }
  }

  /** A call found twice in the file is rewritten at both places by its
      first capture; the second capture then finds nothing left to replace
      but still reports a change. */
  lemma RepeatedCallRewrittenEverywhere(call: string, payload: string, translate: TranslateText)
    requires translate(payload).Ok?
    requires call != []
    requires RewriteCall(Capture(call, payload), translate(payload).value) != call
    requires var newText := RewriteCall(Capture(call, payload), translate(payload).value);
             !Occurs(newText + newText, call)
    ensures var newText := RewriteCall(Capture(call, payload), translate(payload).value);
            RewriteFrom(call + call, false, [Capture(call, payload), Capture(call, payload)], translate)
              == Ok(Rewritten(newText + newText, true))
  {
    var cap := Capture(call, payload);
    var newText := RewriteCall(cap, translate(payload).value);
    ReplaceAllAtStart(call, call, newText);
    ReplaceAllAtStart(call, [], newText);
    assert call + [] == call;
    assert ReplaceAll(call + call, call, newText) == newText + newText;
    ReplaceAllAbsent(newText + newText, call, newText);
    assert [cap, cap][1..] == [cap];
    assert [cap][1..] == [];
    calc {
      RewriteFrom(call + call, false, [cap, cap], translate);
      RewriteFrom(newText + newText, true, [cap], translate);
      RewriteFrom(newText + newText, true, [], translate);
    }
  }

  /** Replacing one character by another is a substitution position by
      position. */
  lemma {:induction false} ReplaceCharPointwise(s: string, c: char, d: char)
    ensures |ReplaceAll(s, [c], [d])| == |s|
    ensures forall i :: 0 <= i < |s| ==> ReplaceAll(s, [c], [d])[i] == if s[i] == c then d else s[i]
    decreases |s|
  {
    if s != [] {
      ReplaceCharPointwise(s[1..], c, d);
      assert StartsWith(s, [c]) <==> s[0] == c;
      var r := ReplaceAll(s, [c], [d]);
      assert r == (if s[0] == c then [d] else [s[0]]) + ReplaceAll(s[1..], [c], [d]);
      forall i | 1 <= i < |s|
        ensures r[i] == if s[i] == c then d else s[i]
      {
        assert r[i] == ReplaceAll(s[1..], [c], [d])[i - 1];
        assert s[i] == s[1..][i - 1];
      }
    }
  }

  /** The message is replaced everywhere inside the call, not only between
      the quotes: when a one-character message also occurs in the function
      name (as "e" does in `gettext("e")`), a differing answer rewrites the
      name too. */
  lemma PayloadReplacedOutsideQuotes(name: string, c: char, d: char)
    requires c in name && c != d
    ensures var call := name + "(\"" + [c] + "\")";
      RewriteCall(Capture(call, [c]), [d])[..|name|] != name
  {
    var call := name + "(\"" + [c] + "\")";
    ReplaceCharPointwise(call, c, d);
    var k :| 0 <= k < |name| && name[k] == c;
    assert call[k] == c;
    assert RewriteCall(Capture(call, [c]), [d])[..|name|][k] == d;
  }

  /* ---------------- `process_file` and `is_processable_file` ---------------- */

  /** What the rewriter decides for one file: the rewritten text, whether it
      changed, and the text written back, if any. */
  datatype FileOutcome = FileOutcome(rewritten: Rewritten, written: Option<string>)

  /** `process_file` without the file system: the file is written back with
      the rewritten text only when some call changed and this is not a dry
      run. */
  method ProcessFile(content: string, captures: seq<Capture>, translate: TranslateText, dryRun: bool)
    returns (r: Result<FileOutcome>)
    ensures match RewriteFrom(content, false, captures, translate)
            case Err(e) => r == Err(e)
            case Ok(w) => r == Ok(FileOutcome(w, if w.changed && !dryRun then Some(w.content) else None))
  {
    var rewritten := TranslateGettextStrings(content, captures, translate);
    if rewritten.Err? {
      return Err(rewritten.error);
    }
    var written: Option<string> := None;
    if rewritten.value.changed && !dryRun {
      written := Some(rewritten.value.content);
    }
    return Ok(FileOutcome(rewritten.value, written));
  }

  /** `Path::file_name` for a path with no trailing separator and no "."
      component: the text after the last '/'. */
  function FileName(path: string): (name: string)
    ensures '/' !in name
    ensures |name| <= |path| && path[|path| - |name|..] == name
    ensures |name| < |path| ==> path[|path| - |name| - 1] == '/'
  {
    match RFindChar(path, '/')
    case None => path
    case Some(k) => path[k + 1..]
  }

  /** `Path::extension` of a file name: the text after its last '.', unless
      that dot is the name's first character (a hidden file such as ".ex"),
      there is no dot, or the name is "..". */
  function Extension(name: string): (ext: Option<string>)
    ensures ext.None? <==> name == ".." || name == [] || '.' !in name[1..]
    ensures ext.Some? ==>
      && '.' !in ext.value && |ext.value| + 1 < |name|
      && name[|name| - |ext.value| - 1] == '.' && name[|name| - |ext.value|..] == ext.value
  {
    if name == ".." then None
    else match RFindChar(name, '.')
      case None => None
      case Some(k) => if k == 0 then None else Some(name[k + 1..])
  }

  /** `is_processable_file`: a regular file whose extension is "ex". */
  predicate IsProcessableFile(isFile: bool, path: string)
  {
    isFile && Extension(FileName(path)) == Some("ex")
  }

  /** A file is accepted exactly when it is a regular file whose name is a
      non-empty stem followed by ".ex"; the stem may hold dots of its own. */
  lemma ProcessableIffExNamed(isFile: bool, path: string)
    ensures IsProcessableFile(isFile, path)
        <==> isFile && exists stem :: stem != [] && FileName(path) == stem + ".ex"
  {
    var name := FileName(path);
    if Extension(name) == Some("ex") {
      ExNamedOfExtension(name);
    }
    if exists stem :: stem != [] && name == stem + ".ex" {
      var stem :| stem != [] && name == stem + ".ex";
      ExtensionOfExNamed(stem);
    }
  }

  /** A name with extension "ex" is a non-empty stem, a dot and "ex". */
  lemma ExNamedOfExtension(name: string)
    requires Extension(name) == Some("ex")
    ensures name[..|name| - 3] != [] && name == name[..|name| - 3] + ".ex"
  {
    var k := RFindChar(name, '.').value;
    assert name[k + 1..] == "ex";
    assert k == |name| - 3;
    assert name == name[..k] + [name[k]] + name[k + 1..];
  }

  /** A non-empty stem, a dot and "ex" has extension "ex". */
  lemma ExtensionOfExNamed(stem: string)
    requires stem != []
    ensures Extension(stem + ".ex") == Some("ex")
  {
    var name := stem + ".ex";
    assert name[|stem|] == '.';
    assert name[|stem| + 1..] == "ex";
    assert RFindChar(name, '.') == Some(|stem|);
  }
}
