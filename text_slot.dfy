/** The driver's two text slots (temperature and humidity): a 16-character buffer that always ends in a
    terminator, the text's anchor position with its int8 visual offsets, its font and its 5/6/5 colour. */
module TextBuffers {
  import opened Colour
  import opened Arduino
  import opened MatrixBase
  import opened PanelSink

  /** sizeof(textBufferTemperature) and sizeof(textBufferHumidity). */
  const BufferSize := 16
  /** The longest text a slot keeps: strncpy copies at most sizeof - 1 characters. */
  const MaxTextLength := BufferSize - 1

  /** strlen on a character array: the characters before the first terminator, or all of them if there is
      none (a C string passed by pointer always has one; the end of the sequence stands in for it). */
  function CStringLength(s: seq<char>): (n: nat)
    ensures n <= |s|
    ensures forall i :: 0 <= i < n ==> s[i] != '\0'
    ensures n < |s| ==> s[n] == '\0'
  {
    if s == [] || s[0] == '\0' then 0 else 1 + CStringLength(s[1..])
  }

  /** The text a character array holds, read as a C string. */
  function CString(s: seq<char>): string
  {
    s[..CStringLength(s)]
  }

  function Truncated(s: string, n: nat): (t: string)
    ensures |t| <= n && t <= s
    ensures |s| <= n ==> t == s
  {
    if |s| <= n then s else s[..n]
  }

  /** What strncpy(dest, src, n) writes into dest[0..n): src's characters up to its terminator, then
      terminators up to n. */
  function Strncpy(src: seq<char>, n: nat): (dest: seq<char>)
    ensures |dest| == n
  {
    seq(n, i requires 0 <= i < n => if i < CStringLength(src) then src[i] else '\0')
  }

  /** The length of a C string is pinned down by its terminator. */
  lemma CStringLengthIs(s: seq<char>, n: nat)
    requires n <= |s|
    requires forall i :: 0 <= i < n ==> s[i] != '\0'
    requires n < |s| ==> s[n] == '\0'
    ensures CStringLength(s) == n
  {
  }

  /** After strncpy of 15 characters and the explicit terminator at index 15, the buffer reads as the first
      15 characters of the source text: longer texts are cut, shorter ones kept whole. */
  lemma {:induction false} StoredText(src: seq<char>)
    ensures CString(Strncpy(src, MaxTextLength) + ['\0']) == Truncated(CString(src), MaxTextLength)
  {
    var buf := Strncpy(src, MaxTextLength) + ['\0'];
    var len := CStringLength(src);
    var m := Min(len, MaxTextLength);
    CStringLengthIs(buf, m);
    assert CString(buf) == buf[..m];
    assert Truncated(CString(src), MaxTextLength) == src[..m];
  }

  /** setTemperatureFont's horizontal centring: (MATRIX_WIDTH - textWidth) / 2 stored into a uint8_t. */
  function CentredX(textWidth: Word): Byte
  {
    ToU8(CDiv(Width - textWidth, 2))
  }

  /** setTemperatureFont's vertical centring of the baseline: (MATRIX_HEIGHT + textHeight) / 2. */
  function CentredY(textHeight: Word): Byte
  {
    ToU8((Height + textHeight) / 2)
  }

  /** setHumidityFont's bottom alignment of the baseline: MATRIX_HEIGHT - textHeight. */
  function BottomY(textHeight: Word): Byte
  {
    ToU8(Height - textHeight)
  }

  /** A text that fits is centred: the space left of it equals the space right of it, or is one pixel less. */
  lemma CentredXBalances(textWidth: Word)
    requires textWidth <= Width
    ensures 0 <= (Width - textWidth - CentredX(textWidth)) - CentredX(textWidth) <= 1
  {
  }

  /** A text wider than the panel gets a negative x that wraps in the uint8_t field; drawTextToPanel's
      conversion to int8_t undoes the wrap for any width up to 320 pixels, so the text stays centred. */
  lemma CentredXSurvivesWrap(textWidth: Word)
    requires textWidth <= 320
    ensures ToI8(CentredX(textWidth)) == CDiv(Width - textWidth, 2)
  {
    var q := CDiv(Width - textWidth, 2);
    assert -128 <= q <= 32;
    if q < 0 {
      assert q % 0x100 == q + 0x100;
      assert (q + 0x100 + 0x80) % 0x100 == q + 0x80;
    }
  }

  class TextSlot {
    const buffer: array<char>
    var x: Byte
    var y: Byte
    var xOffset: I8
    var yOffset: I8
    var font: Font
    var colour: Word

    ghost predicate Valid()
      reads buffer
    {
      buffer.Length == BufferSize && buffer[BufferSize - 1] == '\0'
    }

    /** The text the slot currently holds: never longer than 15 characters. */
    function Text(): (t: string)
      reads buffer
      requires Valid()
      ensures |t| <= MaxTextLength
    {
      CString(buffer[..])
    }

    /** The calls drawTextToPanel makes for this slot: select the font, then print at the anchor plus the
        offsets, the sum converted to int8_t. */
    function DrawEvents(): seq<Event>
      reads this, buffer
      requires Valid()
    {
      [SetFont(font), PrintText(Text(), ToI8(x + xOffset), ToI8(y + yOffset), colour)]
    }

    /** A slot as MatrixDriver.h declares it: the anchor at MATRIX_WIDTH / 2, MATRIX_HEIGHT / 2 and no offsets.
        The driver's constructor then sets the font, the colour and the (empty) text through its setters;
        until it does, the font and colour hold placeholders and the buffer is all terminators. */
    constructor()
      ensures Valid() && fresh(buffer)
      ensures Text() == ""
      ensures x == Width / 2 && y == Height / 2 && xOffset == 0 && yOffset == 0
      ensures font == DefaultFont && colour == 0
    {
      buffer := new char[BufferSize]((_) => '\0');
      x := Width / 2;
      y := Height / 2;
      xOffset := 0;
      yOffset := 0;
      font := DefaultFont;
      colour := 0;
      new;
      CStringLengthIs(buffer[..], 0);
    }

    /** setTemperatureText / setHumidityText: when the slot's mutex is taken within 100 ms, strncpy at most
        15 characters and terminate at index 15; on a timeout nothing changes. */
    method SetText(text: seq<char>, lockTaken: bool)
      requires Valid()
      modifies buffer
      ensures Valid()
      ensures lockTaken ==> buffer[..] == Strncpy(text, MaxTextLength) + ['\0']
      ensures lockTaken ==> Text() == Truncated(CString(text), MaxTextLength)
      ensures !lockTaken ==> buffer[..] == old(buffer[..])
    {
      if !lockTaken {
        return;
      }
      ghost var len := CStringLength(text);
      var i := 0;
      while i < MaxTextLength && i < |text| && text[i] != '\0'
        invariant 0 <= i <= MaxTextLength && i <= len
        invariant forall k :: 0 <= k < i ==> buffer[k] == text[k]
      {
        buffer[i] := text[i];
        i := i + 1;
      }
      assert i == Min(len, MaxTextLength);
      while i < MaxTextLength
        invariant Min(len, MaxTextLength) <= i <= MaxTextLength
        invariant forall k :: 0 <= k < i ==> buffer[k] == if k < len then text[k] else '\0'
      {
        buffer[i] := '\0';
        i := i + 1;
      }
      buffer[MaxTextLength] := '\0';
      assert buffer[..] == Strncpy(text, MaxTextLength) + ['\0'];
      StoredText(text);
    }

    /** setTemperatureTextPosition / setHumidityTextPosition. */
    method SetPosition(x: Byte, y: Byte, lockTaken: bool)
      modifies this
      ensures lockTaken ==> this.x == x && this.y == y
      ensures !lockTaken ==> this.x == old(this.x) && this.y == old(this.y)
      ensures xOffset == old(xOffset) && yOffset == old(yOffset) && font == old(font) && colour == old(colour)
    {
      if lockTaken {
        this.x := x;
        this.y := y;
      }
    }

    /** setTemperatureTextXOffset / setHumidityTextXOffset. */
    method SetXOffset(xOffset: I8, lockTaken: bool)
      modifies this
      ensures this.xOffset == if lockTaken then xOffset else old(this.xOffset)
      ensures x == old(x) && y == old(y) && yOffset == old(yOffset) && font == old(font) && colour == old(colour)
    {
      if lockTaken {
        this.xOffset := xOffset;
      }
    }

    /** setTemperatureTextYOffset / setHumidityTextYOffset. */
    method SetYOffset(yOffset: I8, lockTaken: bool)
      modifies this
      ensures this.yOffset == if lockTaken then yOffset else old(this.yOffset)
      ensures x == old(x) && y == old(y) && xOffset == old(xOffset) && font == old(font) && colour == old(colour)
    {
      if lockTaken {
        this.yOffset := yOffset;
      }
    }

    /** setTemperatureFontColor / setHumidityFontColor. */
    method SetColour(colour: Word, lockTaken: bool)
      modifies this
      ensures this.colour == if lockTaken then colour else old(this.colour)
      ensures x == old(x) && y == old(y) && xOffset == old(xOffset) && yOffset == old(yOffset) && font == old(font)
    {
      if lockTaken {
        this.colour := colour;
      }
    }

    /** The slot half of setTemperatureFont / setHumidityFont: store the font and the anchor the driver
        derived from the font's text extent. */
    method SetFontAndAnchor(font: Font, x: Byte, y: Byte, lockTaken: bool)
      modifies this
      ensures lockTaken ==> this.font == font && this.x == x && this.y == y
      ensures !lockTaken ==> this.font == old(this.font) && this.x == old(this.x) && this.y == old(this.y)
      ensures xOffset == old(xOffset) && yOffset == old(yOffset) && colour == old(colour)
    {
      if lockTaken {
        this.font := font;
        this.x := x;
        this.y := y;
      }
    }
  }
}
