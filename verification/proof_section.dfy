/**
 * The proof section's logo list: the `LOGOS` paths, in order, each paired with an
 * alt text derived from its file name.
 */
module ProofSection {

  /** One logo of the marquee: its image path and its alt text. */
  datatype LogoItem = LogoItem(src: string, alt: string)

  // ---------------------------------------------------------------------------
  // String.prototype.split on a one-character separator

  /** `s.split(sep)`: the pieces between the separators, always at least one. */
  function Split(s: string, sep: char): (r: seq<string>)
    ensures |r| >= 1
    decreases |s|
  {
    if |s| == 0 then [""]
    else
      var rest := Split(s[1..], sep);
      if s[0] == sep then [""] + rest else [[s[0]] + rest[0]] + rest[1..]
  }

  /** The pieces glued back together with the separator between them. */
  function Join(parts: seq<string>, sep: char): string
    requires |parts| >= 1
    decreases |parts|
  {
    if |parts| == 1 then parts[0] else parts[0] + [sep] + Join(parts[1..], sep)
  }

  /** Splitting loses nothing: joining the pieces gives the string back. */
  lemma {:induction false} SplitJoin(s: string, sep: char)
    ensures Join(Split(s, sep), sep) == s
    decreases |s|
  {
    if |s| > 0 {
      var rest := Split(s[1..], sep);
      SplitJoin(s[1..], sep);
      if s[0] == sep {
        assert ([""] + rest)[1..] == rest;
      } else {
        var r := [[s[0]] + rest[0]] + rest[1..];
        if |rest| > 1 {
          assert r[1..] == rest[1..];
          assert Join(rest, sep) == rest[0] + [sep] + Join(rest[1..], sep);
        }
        assert s == [s[0]] + s[1..];
      }
    }
  }

  /** No piece contains the separator. */
  lemma {:induction false} SplitPiecesClean(s: string, sep: char)
    ensures forall k :: 0 <= k < |Split(s, sep)| ==> sep !in Split(s, sep)[k]
    decreases |s|
  {
    if |s| > 0 {
      SplitPiecesClean(s[1..], sep);
      var rest := Split(s[1..], sep);
      if s[0] != sep {
        var r := [[s[0]] + rest[0]] + rest[1..];
        assert forall k :: 1 <= k < |r| ==> r[k] == rest[k];
      } else {
        assert forall k :: 1 <= k < |rest| + 1 ==> ([""] + rest)[k] == rest[k - 1];
      }
    }
  }

  // ---------------------------------------------------------------------------
  // The last path segment

  /** Where the last path segment starts: just past the last `/`, or 0 when there is none. */
  function LastSlashEnd(s: string): (k: nat)
    ensures k <= |s|
    ensures k == 0 || s[k - 1] == '/'
    ensures '/' !in s[k..]
    decreases |s|
  {
    if |s| == 0 then 0
    else
      var k := LastSlashEnd(s[1..]);
      assert s[1..][k..] == s[k + 1..];
      if k > 0 then k + 1 else if s[0] == '/' then 1 else 0
  }

  /** A string splits into more than one piece exactly when it holds the separator. */
  lemma {:induction false} SplitSingle(s: string, sep: char)
    ensures |Split(s, sep)| == 1 <==> sep !in s
    decreases |s|
  {
    if |s| > 0 {
      SplitSingle(s[1..], sep);
      assert s == [s[0]] + s[1..];
    }
  }

  /** `split("/").pop()` is the text after the last `/`, or the whole string without one. */
  lemma {:induction false} LastPieceAfterLastSlash(s: string)
    ensures Split(s, '/')[|Split(s, '/')| - 1] == s[LastSlashEnd(s)..]
    decreases |s|
  {
    if |s| > 0 {
      var t := s[1..];
      LastPieceAfterLastSlash(t);
      SplitSingle(t, '/');
      var rest := Split(t, '/');
      var k := LastSlashEnd(t);
      assert t[k..] == s[k + 1..];
      assert k == 0 <==> '/' !in t;
      if s[0] == '/' {
        assert LastSlashEnd(s) == k + 1 || (k == 0 && LastSlashEnd(s) == 1);
      } else if k > 0 {
        assert LastSlashEnd(s) == k + 1;
        assert |rest| > 1;
      } else {
        assert LastSlashEnd(s) == 0;
        assert |rest| == 1;
        assert s[0..] == [s[0]] + t;
      }
    }
  }

  /** `src.split("/").pop() || "logo"`: the file name, or `"logo"` when the path ends in `/`. */
  function Alt(src: string): string
  {
    var parts := Split(src, '/');
    var last := parts[|parts| - 1];
    if last != "" then last else "logo"
  }

  /** The alt text is the part of the path after its last `/` (or `"logo"` if that
      part is empty), so it is never empty and never holds a `/`. */
  lemma AltIsFileName(src: string)
    ensures src[LastSlashEnd(src)..] != "" ==> Alt(src) == src[LastSlashEnd(src)..]
    ensures src[LastSlashEnd(src)..] == "" ==> Alt(src) == "logo"
    ensures Alt(src) != ""
    ensures '/' !in Alt(src)
  {
    LastPieceAfterLastSlash(src);
  }

  /** A path made of a directory ending in `/` and a plain file name gets the file name as alt. */
  lemma AltOfFileInDir(dir: string, name: string)
    requires |dir| > 0 && dir[|dir| - 1] == '/'
    requires name != "" && '/' !in name
    ensures Alt(dir + name) == name
  {
    var s := dir + name;
    var k := LastSlashEnd(s);
    AltIsFileName(s);
    SlashBeforeTail(s, k, |dir| - 1);
    assert s[|dir|..] == name;
    assert k == |dir|;
  }

  /** A `/` at position `j` lies before any tail that holds no `/`. */
  lemma SlashBeforeTail(s: string, k: nat, j: nat)
    requires k <= |s| && '/' !in s[k..]
    requires j < |s| && s[j] == '/'
    ensures j < k
  {
  }

  // ---------------------------------------------------------------------------
  // logoItems

  /** `LOGOS.map(src => ({ src, alt }))`. */
  function LogoItems(logos: seq<string>): (r: seq<LogoItem>)
    ensures |r| == |logos|
    ensures forall i :: 0 <= i < |r| ==> r[i].src == logos[i] && r[i].alt == Alt(logos[i])
  {
    seq(|logos|, i requires 0 <= i < |logos| => LogoItem(logos[i], Alt(logos[i])))
  }

  /** The order of the list is kept, every path is carried over unchanged, and every
      alt text is a non-empty string without `/`. */
  lemma LogoItemsKeepOrder(logos: seq<string>)
    ensures |LogoItems(logos)| == |logos|
    ensures forall i :: 0 <= i < |logos| ==> LogoItems(logos)[i].src == logos[i]
    ensures forall i :: 0 <= i < |logos| ==>
              LogoItems(logos)[i].alt != "" && '/' !in LogoItems(logos)[i].alt
  {
    forall i | 0 <= i < |logos|
      ensures LogoItems(logos)[i].alt != "" && '/' !in LogoItems(logos)[i].alt
    {
      AltIsFileName(logos[i]);
    }
  }

  /** `LOGOS`: the logo paths, in display order. */
  const Logos: seq<string> := [
    "/logos/intel.svg", "/logos/virgin_media.png", "/logos/texaco.png",
    "/logos/snap_retail.png", "/logos/sky.png", "/logos/salim_habib.svg",
    "/logos/principles_you.png", "/logos/resource_linked.png", "/logos/insync.svg",
    "/logos/mohsyn.png", "/logos/eocean.png", "/logos/nick.png", "/logos/denning.png",
    "/logos/angel_school.png", "/logos/atu.png", "/logos/bordgais.png", "/logos/dcu.png",
    "/logos/decode.png", "/logos/duhs.png", "/logos/eir.png",
    "/logos/enterprise_ireland.svg", "/logos/ku.png", "/logos/nicat.png", "/logos/ned.png"
  ]

  /** For the shipped list the first logo, `"/logos/intel.svg"`, gets the alt text `"intel.svg"`. */
  lemma ShippedFirstAlt()
    ensures |LogoItems(Logos)| == 24
    ensures LogoItems(Logos)[0] == LogoItem("/logos/intel.svg", "intel.svg")
  {
    assert Logos[0] == "/logos/" + "intel.svg";
    AltOfFileInDir("/logos/", "intel.svg");
  }

  /** The last logo, `"/logos/ned.png"`, gets the alt text `"ned.png"`. */
  lemma ShippedLastAlt()
    ensures LogoItems(Logos)[23] == LogoItem("/logos/ned.png", "ned.png")
  {
    assert Logos[23] == "/logos/" + "ned.png";
    AltOfFileInDir("/logos/", "ned.png");
  }
}
