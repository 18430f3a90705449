/** The checks upload_photo makes before it stores a progress photo, and
    the file name it stores the photo under. */
module Photos {
  import opened Wrappers
  import opened Text
  import opened Auth

  /** `s.rfind(c)`: the index of the last c in s, or -1. */
  function LastIndex(s: string, c: char): (r: int)
    ensures -1 <= r < |s|
    ensures r >= 0 ==> s[r] == c
    ensures forall j :: r < j < |s| ==> s[j] != c
  {
    if s == [] then -1
    else if s[|s| - 1] == c then |s| - 1
    else LastIndex(s[..|s| - 1], c)
  }

  /** Every character of s[lo..hi] is a dot. */
  predicate DotsOnly(s: string, lo: int, hi: int)
    requires 0 <= lo && hi <= |s|
  {
    forall i :: lo <= i < hi ==> s[i] == '.'
  }

  /** The extension part of `os.path.splitext(p)` on POSIX: from the last
      dot on, provided that dot comes after the last '/' and the file name
      before it is not made of dots alone (so ".jpg" and "..jpg" have
      none); otherwise "". */
  function Ext(p: string): (e: string)
    ensures |e| <= |p| && p[|p| - |e|..] == e
    ensures e == [] || e[0] == '.'
    ensures forall i :: 0 < i < |e| ==> e[i] != '.' && e[i] != '/'
  {
    var sep := LastIndex(p, '/');
    var dot := LastIndex(p, '.');
    if dot > sep && !DotsOnly(p, sep + 1, dot) then p[dot..] else ""
  }

  lemma LastIndexOfSuffix(s: string, t: string, c: char)
    requires forall i :: 0 <= i < |t| ==> t[i] != c
    ensures LastIndex(s + t, c) == LastIndex(s, c)
  {
    if t != [] {
      var u := s + t;
      assert u[..|u| - 1] == s + t[..|t| - 1];
      LastIndexOfSuffix(s, t[..|t| - 1], c);
    } else {
      assert s + t == s;
    }
  }

  /** A file name with a stem that is not all dots and an extension free of
      dots splits at that extension. */
  lemma ExtOfName(stem: string, e: string)
    requires forall i :: 0 <= i < |stem| ==> stem[i] != '/'
    requires exists i :: 0 <= i < |stem| && stem[i] != '.'
    requires forall i :: 0 <= i < |e| ==> e[i] != '.' && e[i] != '/'
    ensures Ext(stem + "." + e) == "." + e
  {
    var p := stem + "." + e;
    LastIndexOfSuffix(stem + ".", e, '/');
    LastIndexOfSuffix(stem, ".", '/');
    LastIndexOfSuffix(stem + ".", e, '.');
    assert LastIndex(stem + ".", '.') == |stem|;
    assert p[|stem|..] == "." + e;
    var i :| 0 <= i < |stem| && stem[i] != '.';
    assert p[i] == stem[i];
  }

  /** A "hidden" name, dots followed by a dot-free word, has no extension:
      an upload named ".jpg" is refused. */
  lemma HiddenNameHasNoExt(dots: string, e: string)
    requires |dots| >= 1 && forall i :: 0 <= i < |dots| ==> dots[i] == '.'
    requires forall i :: 0 <= i < |e| ==> e[i] != '.' && e[i] != '/'
    ensures Ext(dots + e) == ""
  {
    LastIndexOfSuffix(dots, e, '/');
    LastIndexOfSuffix(dots, e, '.');
    assert LastIndex(dots, '/') == -1;
    assert LastIndex(dots, '.') == |dots| - 1;
  }

  const AllowedExts: seq<string> := [".jpg", ".jpeg", ".png", ".webp"]

  /** The size limit, 10 MiB. */
  const MaxPhotoBytes: nat := 10 * 1024 * 1024

  const BadTypeDetail := "Envie jpg/png/webp."
  const TooBigDetail := "Imagem muito grande (máx 10MB)."

  /** upload_photo's validation and name: the lower-cased extension of the
      uploaded file's name (a missing name reads as "") must be one of the
      four image extensions, then the content must not exceed the limit;
      the stored name is `<taken_day>_<ts><ext>`, where `ts` is the upload
      time formatted as `%Y%m%d_%H%M%S`. */
  function PhotoName(filename: Option<string>, size: nat, takenDay: string, ts: string): (r: Result<string, HttpError>)
    ensures var ext := Lower(Ext(if filename.Some? then filename.value else ""));
            && (r.Ok? <==> ext in AllowedExts && size <= MaxPhotoBytes)
            && (r.Ok? ==> IsPrefix(takenDay + "_" + ts, r.value) && r.value[|takenDay| + 1 + |ts|..] == ext)
            && (r.Err? ==> r.error.status == 400)
            && (r.Err? ==> (r.error.detail == BadTypeDetail <==> ext !in AllowedExts))
            && (r.Err? && ext in AllowedExts ==> r.error.detail == TooBigDetail)
  {
    var ext := Lower(Ext(if filename.Some? then filename.value else ""));
    if ext !in AllowedExts then Err(HttpError(400, BadTypeDetail))
    else if size > MaxPhotoBytes then Err(HttpError(400, TooBigDetail))
    else
      var name := takenDay + "_" + ts + ext;
      assert name[..|takenDay + "_" + ts|] == takenDay + "_" + ts;
      Ok(name)
  }

  /** An image named `<stem>.<ext>` with any capitalisation of one of the
      four extensions is accepted when small enough and stored under the
      lower-cased extension. */
  lemma PhotoNameOfImage(stem: string, e: string, size: nat, takenDay: string, ts: string)
    requires forall i :: 0 <= i < |stem| ==> stem[i] != '/'
    requires exists i :: 0 <= i < |stem| && stem[i] != '.'
    requires forall i :: 0 <= i < |e| ==> e[i] != '.' && e[i] != '/'
    requires Lower(e) in ["jpg", "jpeg", "png", "webp"]
    ensures PhotoName(Some(stem + "." + e), size, takenDay, ts) ==
              if size <= MaxPhotoBytes then Ok(takenDay + "_" + ts + "." + Lower(e))
              else Err(HttpError(400, TooBigDetail))
  {
    ExtOfName(stem, e);
    var le := Lower(e);
    assert Lower("." + e) == "." + le;
    assert "." + le in AllowedExts by {
      if le == "jpg" { assert "." + le == ".jpg"; }
      else if le == "jpeg" { assert "." + le == ".jpeg"; }
      else if le == "png" { assert "." + le == ".png"; }
      else { assert "." + le == ".webp"; }
    }
    var head := takenDay + "_" + ts;
    assert head + "." + le == head + ("." + le);
  }

  /** The stored name contains a '/' exactly when the taken day or the
      timestamp does: the day is put into the path unchecked. */
  lemma PhotoNameSeparators(filename: Option<string>, size: nat, takenDay: string, ts: string)
    requires PhotoName(filename, size, takenDay, ts).Ok?
    ensures var name := PhotoName(filename, size, takenDay, ts).value;
            '/' in name <==> '/' in takenDay || '/' in ts
  {
    var ext := Lower(Ext(if filename.Some? then filename.value else ""));
    NoSeparatorInAllowed(ext);
    var name := PhotoName(filename, size, takenDay, ts).value;
    var head := takenDay + "_" + ts;
    assert name == head + ext;
    InConcat(head, ext, '/');
    InConcat(takenDay + "_", ts, '/');
    InConcat(takenDay, "_", '/');
  }

  lemma NoSeparatorInAllowed(x: string)
    requires x in AllowedExts
    ensures '/' !in x
  {
  }

  lemma InConcat(a: string, b: string, c: char)
    ensures c in a + b <==> c in a || c in b
  {
    if c in a + b {
      var i :| 0 <= i < |a + b| && (a + b)[i] == c;
      if i >= |a| { assert b[i - |a|] == c; }
    }
    if c in b {
      var i :| 0 <= i < |b| && b[i] == c;
      assert (a + b)[|a| + i] == c;
    }
  }
}
