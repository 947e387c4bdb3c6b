/** The two helpers behind the profile picture: the geometry of `getCroppedImg`, which draws the
    image in the middle of a square canvas large enough for any rotation and reads the crop
    back, and `dataURLtoFile`, which turns a `data:` URL (section 3 of RFC 2397) into the bytes
    of a file. */
module ImageUtils {
  import opened Common
  import opened Text

  // ---------------------------------------------------------------------------------------
  // getCroppedImg

  /** A rectangle in canvas pixels, as `pixelCrop` and `getImageData` take it. */
  datatype Region = Region(x: real, y: real, width: real, height: real)

  /** What `getCroppedImg` does to the canvas: the side of the square work canvas, where the
      image is drawn, the offsets it computes for the crop, the rectangle it reads back, and
      the size of the output canvas. */
  datatype CropPlan = CropPlan(
    safeArea: nat,
    drawX: real, drawY: real,
    offsetX: real, offsetY: real,
    read: Region,
    outputWidth: real, outputHeight: real)

  function Max(a: nat, b: nat): nat {
    if a >= b then a else b
  }

  /** The arithmetic of `getCroppedImg` for an image of `imageWidth` by `imageHeight` pixels.
      `hasContext` says whether the canvas gave a 2d context; without one the function throws
      before drawing anything. The square canvas is twice the longer side, the image is drawn
      so that its centre is the canvas centre, and the crop, given in image pixels, is read
      back shifted by the image's offset, with its size kept. */
  function PlanCrop(imageWidth: nat, imageHeight: nat, pixelCrop: Region, hasContext: bool): (r: Result<CropPlan>)
    ensures r.Err? <==> !hasContext
    ensures r.Err? ==> r.message == "No 2d context available"
    ensures r.Ok? ==>
      var p := r.value;
      && p.safeArea == 2 * Max(imageWidth, imageHeight)
      && p.safeArea >= imageWidth && p.safeArea >= imageHeight
      // the image, drawn at the offsets, lies inside the canvas and is centred on it
      && p.drawX == p.offsetX && p.drawY == p.offsetY
      && 0.0 <= p.offsetX && p.offsetX + imageWidth as real <= p.safeArea as real
      && 0.0 <= p.offsetY && p.offsetY + imageHeight as real <= p.safeArea as real
      && p.offsetX + imageWidth as real / 2.0 == p.safeArea as real / 2.0
      && p.offsetY + imageHeight as real / 2.0 == p.safeArea as real / 2.0
      // relative to where the image is drawn, the rectangle read back is the requested crop
      && p.read.x - p.drawX == pixelCrop.x && p.read.y - p.drawY == pixelCrop.y
      && p.read.width == pixelCrop.width && p.read.height == pixelCrop.height
      // the output canvas has exactly the size of the crop
      && p.outputWidth == pixelCrop.width && p.outputHeight == pixelCrop.height
  {
    if !hasContext then Err("No 2d context available")
    else
      var safeArea := Max(imageWidth, imageHeight) * 2;
      var side := safeArea as real;
      var w, h := imageWidth as real, imageHeight as real;
      var drawX, drawY := side / 2.0 - w / 2.0, side / 2.0 - h / 2.0;
      var offsetX, offsetY := (side - w) / 2.0, (side - h) / 2.0;
      var croppedX, croppedY := pixelCrop.x + offsetX, pixelCrop.y + offsetY;
      Ok(CropPlan(safeArea, drawX, drawY, offsetX, offsetY,
                  Region(croppedX, croppedY, pixelCrop.width, pixelCrop.height),
                  pixelCrop.width, pixelCrop.height))
  }

  /** A crop that lies inside the image is read from inside the canvas: the rectangle read back
      never reaches past the square canvas, whichever the image's shape. */
  lemma CropInsideImageStaysOnCanvas(imageWidth: nat, imageHeight: nat, pixelCrop: Region)
    requires 0.0 <= pixelCrop.x && 0.0 <= pixelCrop.width && pixelCrop.x + pixelCrop.width <= imageWidth as real
    requires 0.0 <= pixelCrop.y && 0.0 <= pixelCrop.height && pixelCrop.y + pixelCrop.height <= imageHeight as real
    ensures var p := PlanCrop(imageWidth, imageHeight, pixelCrop, true).value;
      && 0.0 <= p.read.x && p.read.x + p.read.width <= p.safeArea as real
      && 0.0 <= p.read.y && p.read.y + p.read.height <= p.safeArea as real
  {
    var p := PlanCrop(imageWidth, imageHeight, pixelCrop, true).value;
    assert p.read.x + p.read.width == p.offsetX + (pixelCrop.x + pixelCrop.width);
    assert p.read.y + p.read.height == p.offsetY + (pixelCrop.y + pixelCrop.height);
  }

  // ---------------------------------------------------------------------------------------
  // String.prototype.split with a one-character separator

  /** The index of the first `sep` in `s`, if any. */
  function IndexOf(s: string, sep: char): (r: Option<nat>)
    ensures r.Some? ==> r.value < |s| && s[r.value] == sep && forall k :: 0 <= k < r.value ==> s[k] != sep
    ensures r.None? ==> forall k :: 0 <= k < |s| ==> s[k] != sep
    decreases |s|
  {
    if s == [] then None
    else if s[0] == sep then Some(0)
    else
      match IndexOf(s[1..], sep)
      case None => None
      case Some(k) => Some(k + 1)
  }

  /** `piece` holds no `sep`. */
  predicate NoSep(piece: string, sep: char) {
    forall k :: 0 <= k < |piece| ==> piece[k] != sep
  }

  /** `s.split(sep)`: the pieces of `s` between the separators, always at least one. The first
      piece is the text up to the first separator, or all of it when there is none. */
  function Split(s: string, sep: char): (r: seq<string>)
    ensures |r| >= 1
    ensures forall i :: 0 <= i < |r| ==> NoSep(r[i], sep)
    ensures |r[0]| <= |s| && r[0] == s[..|r[0]|] && (|r[0]| == |s| || s[|r[0]|] == sep)
    ensures |r| >= 2 <==> IndexOf(s, sep).Some?
    decreases |s|
  {
    match IndexOf(s, sep)
    case None => [s]
    case Some(k) => [s[..k]] + Split(s[k + 1..], sep)
  }

  /** `parts.join(sep)`. */
  function Join(parts: seq<string>, sep: char): string
    requires |parts| >= 1
    decreases |parts|
  {
    if |parts| == 1 then parts[0] else parts[0] + [sep] + Join(parts[1..], sep)
  }

  /** Splitting loses nothing: joining the pieces with the separator gives back the text. */
  lemma {:induction false} JoinSplit(s: string, sep: char)
    ensures Join(Split(s, sep), sep) == s
    decreases |s|
  {
    match IndexOf(s, sep)
    case None =>
    case Some(k) =>
      var rest := Split(s[k + 1..], sep);
      var parts := Split(s, sep);
      assert parts == [s[..k]] + rest;
      assert parts[0] == s[..k] && parts[1..] == rest && |parts| >= 2;
      JoinSplit(s[k + 1..], sep);
      assert Join(parts, sep) == s[..k] + [sep] + s[k + 1..];
      assert s == s[..k] + [sep] + s[k + 1..];
  }

  /** The first separator after a piece without one is the one that ends the piece, so the
      split takes that piece and goes on after the separator. */
  lemma SplitAfterPiece(head: string, rest: string, sep: char)
    requires NoSep(head, sep)
    ensures Split(head + [sep] + rest, sep) == [head] + Split(rest, sep)
  {
    var s := head + [sep] + rest;
    assert s[|head|] == sep;
    assert forall k :: 0 <= k < |head| ==> s[k] == head[k];
    assert IndexOf(s, sep) == Some(|head|);
    assert s[..|head|] == head && s[|head| + 1..] == rest;
  }

  /** And splitting finds exactly the pieces that were joined, provided none of them holds the
      separator. */
  lemma {:induction false} SplitJoin(parts: seq<string>, sep: char)
    requires |parts| >= 1
    requires forall i :: 0 <= i < |parts| ==> NoSep(parts[i], sep)
    ensures Split(Join(parts, sep), sep) == parts
    decreases |parts|
  {
    if |parts| == 1 {
      assert IndexOf(parts[0], sep) == None by {
        assert NoSep(parts[0], sep);
      }
    } else {
      var head, tail := parts[0], parts[1..];
      assert NoSep(head, sep);
      assert forall i :: 0 <= i < |tail| ==> NoSep(tail[i], sep) by {
        forall i | 0 <= i < |tail| ensures NoSep(tail[i], sep) {
          assert tail[i] == parts[i + 1];
        }
      }
      SplitAfterPiece(head, Join(tail, sep), sep);
      SplitJoin(tail, sep);
      assert parts == [head] + tail;
    }
  }

  // ---------------------------------------------------------------------------------------
  // The media type: /:(.*?);/

  /** From `t` on, the text runs to a `;` at `j` without passing another `;` or a line
      terminator (which `.` does not match). */
  predicate Reaches(h: string, t: nat, j: nat) {
    t <= j < |h| && h[j] == ';' && forall u :: t <= u < j ==> h[u] != ';' && !IsLineTerminator(h[u])
  }

  /** The pattern `:(.*?);` matches at `k`, ending with the `;` at `j`: the lazy `.*?` stops at
      the first `;` it can reach. */
  predicate MatchesAt(h: string, k: nat, j: nat) {
    k < |h| && h[k] == ':' && Reaches(h, k + 1, j)
  }

  /** The first `;` reachable from `t`. */
  function SemicolonFrom(h: string, t: nat): (r: Option<nat>)
    ensures r.Some? ==> Reaches(h, t, r.value)
    ensures r.None? ==> forall j: nat :: !Reaches(h, t, j)
    decreases |h| - t
  {
    if t >= |h| then None
    else if h[t] == ';' then Some(t)
    else if IsLineTerminator(h[t]) then None
    else
      var r := SemicolonFrom(h, t + 1);
      assert forall j: nat :: Reaches(h, t, j) ==> j == t || Reaches(h, t + 1, j);
      r
  }

  /** The leftmost match of the pattern at or after `k`, as the positions of its `:` and
      `;`. */
  function MatchFrom(h: string, k: nat): (r: Option<(nat, nat)>)
    ensures r.Some? ==> k <= r.value.0 && MatchesAt(h, r.value.0, r.value.1)
    ensures r.Some? ==> forall k': nat, j: nat :: k <= k' < r.value.0 ==> !MatchesAt(h, k', j)
    ensures r.None? ==> forall k': nat, j: nat :: k <= k' ==> !MatchesAt(h, k', j)
    decreases |h| - k
  {
    if k >= |h| then None
    else if h[k] == ':' && SemicolonFrom(h, k + 1).Some? then Some((k, SemicolonFrom(h, k + 1).value))
    else MatchFrom(h, k + 1)
  }

  /** `header.match(/:(.*?);/)`, and the default when nothing matches. */
  function MimeOf(header: string): string {
    match MatchFrom(header, 0)
    case Some((k, j)) => header[k + 1..j]
    case None => "image/jpeg"
  }

  /** A match reads the text between the first `:` that reaches a `;` and that `;`; the media
      type is `image/jpeg` exactly when no `:` reaches a `;`. */
  lemma MimeOfCharacterised(header: string)
    ensures (forall k: nat, j: nat :: !MatchesAt(header, k, j)) ==> MimeOf(header) == "image/jpeg"
    ensures forall k: nat, j: nat ::
      MatchesAt(header, k, j) && (forall k': nat, j': nat :: k' < k ==> !MatchesAt(header, k', j'))
      ==> MimeOf(header) == header[k + 1..j]
  {
    forall k: nat, j: nat | MatchesAt(header, k, j) && (forall k': nat, j': nat :: k' < k ==> !MatchesAt(header, k', j'))
      ensures MimeOf(header) == header[k + 1..j]
    {
      var m := MatchFrom(header, 0);
      assert m.Some?;
      var (k0, j0) := m.value;
      assert k0 == k;
      ReachesUnique(header, k + 1, j, j0);
    }
  }

  /** The `;` a match ends at is determined by its `:`. */
  lemma ReachesUnique(h: string, t: nat, j1: nat, j2: nat)
    requires Reaches(h, t, j1) && Reaches(h, t, j2)
    ensures j1 == j2
  {
  }

  /** The usual header of a data URL, `data:<type>;base64`, gives `<type>`. */
  lemma MimeOfDataHeader(mime: string)
    requires forall i :: 0 <= i < |mime| ==> mime[i] != ';' && !IsLineTerminator(mime[i])
    ensures MimeOf("data:" + mime + ";base64") == mime
  {
    var h := "data:" + mime + ";base64";
    var j := 5 + |mime|;
    assert h[4] == ':' && h[j] == ';';
    assert forall u :: 5 <= u < j ==> h[u] == mime[u - 5];
    assert MatchesAt(h, 4, j);
    forall k': nat, j': nat | k' < 4 ensures !MatchesAt(h, k', j') {
      assert h[k'] == "data"[k'];
    }
    MimeOfCharacterised(h);
    assert h[5..j] == mime;
  }

  // ---------------------------------------------------------------------------------------
  // dataURLtoFile

  /** The parts of a data URL `dataURLtoFile` uses: the media type and the text handed to
      `atob`, which is the piece after the first comma (up to any second comma), or the text
      "undefined" when there is no comma, since `arr[1]` is then `undefined` and `atob`
      converts it to a string. */
  function DataUrlParts(dataurl: string): (r: (string, string))
    ensures IndexOf(dataurl, ',').None? ==> r.0 == MimeOf(dataurl) && r.1 == "undefined"
    ensures IndexOf(dataurl, ',').Some? ==>
      var k := IndexOf(dataurl, ',').value;
      var rest := dataurl[k + 1..];
      && r.0 == MimeOf(dataurl[..k])
      && |r.1| <= |rest| && r.1 == rest[..|r.1|] && NoSep(r.1, ',')
      && (|r.1| == |rest| || rest[|r.1|] == ',')
  {
    var arr := Split(dataurl, ',');
    (MimeOf(arr[0]), if |arr| >= 2 then arr[1] else "undefined")
  }

  /** An entry of a `Uint8Array`. */
  newtype uint8 = x: int | 0 <= x < 256

  /** The byte `Uint8Array` stores for a character code: the code modulo 256. */
  function Byte(c: char): uint8 {
    ((c as int) % 256) as uint8
  }

  /** A `File`: its bytes, its name and its media type. */
  datatype File = File(bytes: seq<uint8>, name: string, mimeType: string)

  /** `dataURLtoFile`. `atob` decodes base64 (section 4 of RFC 4648) into a string of byte
      characters, or throws (`None`) on text that is not base64. */
  method DataUrlToFile(dataurl: string, filename: string, atob: string -> Option<string>) returns (r: Result<File>)
    ensures var (mime, payload) := DataUrlParts(dataurl);
      match atob(payload)
      case None => r == Err("InvalidCharacterError")
      case Some(bstr) =>
        && r.Ok? && r.value.name == filename && r.value.mimeType == mime
        && |r.value.bytes| == |bstr|
        && forall i :: 0 <= i < |bstr| ==> r.value.bytes[i] == Byte(bstr[i])
  {
    var arr := Split(dataurl, ',');
    var mime := MimeOf(arr[0]);
    var payload := if |arr| >= 2 then arr[1] else "undefined";
    var decoded := atob(payload);
    if decoded.None? {
      return Err("InvalidCharacterError");
    }
    var bstr := decoded.value;
    var n := |bstr|;
    var u8arr := new uint8[n];
    while n != 0
      invariant 0 <= n <= |bstr| && u8arr.Length == |bstr|
      invariant forall i :: n <= i < |bstr| ==> u8arr[i] == Byte(bstr[i])
    {
      n := n - 1;
      u8arr[n] := Byte(bstr[n]);
    }
    r := Ok(File(u8arr[..], filename, mime));
  }

  /** Every character of a string `atob` returns is below 256, so the bytes keep the decoded
      data exactly: each byte is the character's code. */
  lemma BytesKeepByteStrings(bstr: string, bytes: seq<uint8>)
    requires forall i :: 0 <= i < |bstr| ==> (bstr[i] as int) < 256
    requires |bytes| == |bstr| && forall i :: 0 <= i < |bstr| ==> bytes[i] == Byte(bstr[i])
    ensures forall i :: 0 <= i < |bstr| ==> bytes[i] as int == bstr[i] as int
  {
  }
}
