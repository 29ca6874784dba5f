/**
 * Resolution of the `--lang` flag (tts.js:62, 90-111): the value is split
 * on commas; if the literal `all` occurs anywhere in the list the fixed
 * catalog is used, otherwise the list itself is used verbatim and every
 * entry that is not in the catalog is only reported.
 */
module Languages {

  /** The 48 locale codes the tool knows about, in the source's order. */
  const Catalog: seq<string> := [
    "ar-XA", "bn-IN", "en-GB", "fr-CA",
    "en-US", "es-ES", "fi-FI", "gu-IN",
    "ja-JP", "kn-IN", "ml-IN", "sv-SE",
    "ta-IN", "tr-TR", "cs-CZ", "de-DE",
    "en-AU", "en-IN", "fr-FR", "hi-IN",
    "id-ID", "it-IT", "ko-KR", "ru-RU",
    "uk-UA", "cmn-CN", "cmn-TW", "da-DK",
    "el-GR", "fil-PH", "hu-HU", "nb-NO",
    "nl-NL", "pt-PT", "sk-SK", "vi-VN",
    "pl-PL", "pt-BR", "ca-ES", "yue-HK",
    "af-ZA", "bg-BG", "lv-LV", "ro-RO",
    "sr-RS", "th-TH", "te-IN", "is-IS"
  ]

  /** The sentinel that selects the whole catalog. */
  const AllSentinel: string := "all"

  /** JavaScript's `s.split(sep)` for a one-character separator: the pieces
      between separators, always at least one (an empty string splits into
      one empty piece). */
  function Split(s: string, sep: char): (parts: seq<string>)
    ensures |parts| >= 1
    ensures forall i :: 0 <= i < |parts| ==> sep !in parts[i]
    decreases |s|
  {
    if s == [] then [""]
    else
      var rest := Split(s[1..], sep);
      if s[0] == sep then [""] + rest
      else [[s[0]] + rest[0]] + rest[1..]
  }

  /** The inverse of Split: the pieces glued back with the separator. */
  function Join(parts: seq<string>, sep: char): string
    requires |parts| >= 1
    decreases |parts|
  {
    if |parts| == 1 then parts[0] else parts[0] + [sep] + Join(parts[1..], sep)
  }

  lemma {:induction false} JoinPrepend(c: char, parts: seq<string>, sep: char)
    requires |parts| >= 1
    ensures Join([[c] + parts[0]] + parts[1..], sep) == [c] + Join(parts, sep)
  {
    var ps := [[c] + parts[0]] + parts[1..];
    assert ps[1..] == parts[1..];
  }

  /** Splitting and joining again gives back the flag value. */
  lemma {:induction false} JoinSplit(s: string, sep: char)
    ensures Join(Split(s, sep), sep) == s
    decreases |s|
  {
    if s != [] {
      JoinSplit(s[1..], sep);
      var rest := Split(s[1..], sep);
      if s[0] == sep {
        assert ([""] + rest)[1..] == rest;
      } else {
        JoinPrepend(s[0], rest, sep);
      }
    }
  }

  lemma {:induction false} SplitPlain(x: string, sep: char)
    requires sep !in x
    ensures Split(x, sep) == [x]
    decreases |x|
  {
    if x != [] {
      SplitPlain(x[1..], sep);
      assert [x[0]] + x[1..] == x;
    }
  }

  lemma {:induction false} SplitSeparated(x: string, y: string, sep: char)
    requires sep !in x
    ensures Split(x + [sep] + y, sep) == [x] + Split(y, sep)
    decreases |x|
  {
    var s := x + [sep] + y;
    if x == [] {
      assert s[0] == sep && s[1..] == y;
    } else {
      assert s[0] == x[0] && s[1..] == x[1..] + [sep] + y;
      SplitSeparated(x[1..], y, sep);
      assert [x[0]] + x[1..] == x;
    }
  }

  /** Joining separator-free pieces and splitting again gives the pieces. */
  lemma {:induction false} SplitJoin(parts: seq<string>, sep: char)
    requires |parts| >= 1
    requires forall i :: 0 <= i < |parts| ==> sep !in parts[i]
    ensures Split(Join(parts, sep), sep) == parts
    decreases |parts|
  {
    if |parts| == 1 {
      SplitPlain(parts[0], sep);
    } else {
      SplitJoin(parts[1..], sep);
      SplitSeparated(parts[0], Join(parts[1..], sep), sep);
      assert [parts[0]] + parts[1..] == parts;
    }
  }

  /** The entries of `selected` that `known` does not list, in list order. */
  function Unlisted(selected: seq<string>, known: seq<string>): seq<string>
    decreases |selected|
  {
    if selected == [] then []
    else
      var last := selected[|selected| - 1];
      Unlisted(selected[..|selected| - 1], known) + (if last in known then [] else [last])
  }

  /** The entries that are reported as invalid, in list order. */
  function Unknown(selected: seq<string>): seq<string> {
    Unlisted(selected, Catalog)
  }

  lemma {:induction false} UnlistedMembers(selected: seq<string>, known: seq<string>)
    ensures forall x :: x in Unlisted(selected, known) <==> x in selected && x !in known
    ensures |Unlisted(selected, known)| <= |selected|
    decreases |selected|
  {
    if selected != [] {
      var init := selected[..|selected| - 1];
      UnlistedMembers(init, known);
      assert selected == init + [selected[|selected| - 1]];
    }
  }

  lemma {:induction false} UnlistedCounts(selected: seq<string>, known: seq<string>)
    ensures forall x :: multiset(Unlisted(selected, known))[x] == if x in known then 0 else multiset(selected)[x]
    decreases |selected|
  {
    if selected != [] {
      var init := selected[..|selected| - 1];
      var last := selected[|selected| - 1];
      var tail := if last in known then [] else [last];
      UnlistedCounts(init, known);
      assert selected == init + [last];
      assert multiset(selected) == multiset(init) + multiset{last};
      assert multiset(Unlisted(selected, known)) == multiset(Unlisted(init, known)) + multiset(tail);
    }
  }

  /** An entry is reported exactly when it occurs in the list and not in the
      catalog, and each unknown code is reported once per occurrence. */
  lemma UnknownMembers(selected: seq<string>)
    ensures forall x :: x in Unknown(selected) <==> x in selected && x !in Catalog
    ensures forall x :: multiset(Unknown(selected))[x] == if x in Catalog then 0 else multiset(selected)[x]
    ensures |Unknown(selected)| <= |selected|
  {
    UnlistedMembers(selected, Catalog);
    UnlistedCounts(selected, Catalog);
  }

  /** The check loop of tts.js:104-111: it reports the unknown entries and
      then replaces the catalog by the user's list, unknown entries
      included; when `all` occurs, nothing is checked and the catalog stays. */
  method ResolveLanguages(selected: seq<string>) returns (languages: seq<string>, reported: seq<string>)
    ensures AllSentinel in selected ==> languages == Catalog && |languages| == 48 && reported == []
    ensures AllSentinel !in selected ==> languages == selected && reported == Unknown(selected)
  {
    languages := Catalog;
    reported := [];
    if AllSentinel !in selected {
      for i := 0 to |selected|
        invariant reported == Unknown(selected[..i])
      {
        var l := selected[i];
        assert selected[..i + 1][..i] == selected[..i];
        if l !in Catalog {
          reported := reported + [l];
        }
      }
      assert selected[..|selected|] == selected;
      languages := selected;
    }
  }
}
