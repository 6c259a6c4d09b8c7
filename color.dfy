/** The argument handling of the color command (CoreModule/ColorCommand.go):
    colorCommand picks the hex digits, from a "#hex" argument or from the
    target user's colour, and handleHex pads them to six digits and reads
    their value. */
module ColorCommand {
  import opened Outcomes
  import opened Gateway
  import opened Numerals

  /** strings.SplitN(content, " ", 2)[1], or "" when there is no space. */
  function ColorArgument(content: string): (arg: string)
    ensures ' ' !in content ==> arg == ""
    ensures ' ' in content ==>
              var i := |content| - |arg| - 1;
              && 0 <= i && content[i] == ' ' && ' ' !in content[..i]
              && content[i + 1..] == arg
  {
    if content == [] then ""
    else if content[0] == ' ' then content[1..]
    else
      var arg := ColorArgument(content[1..]);
      assert ' ' in content ==> ' ' in content[1..];
      assert ' ' in content[1..] ==> content[1..][..|content| - |arg| - 2] == content[1..|content| - |arg| - 1];
      arg
  }

  /** Whatever precedes the first space, the argument is everything after it. */
  lemma {:induction false} ArgumentAfterFirstSpace(head: string, rest: string)
    requires ' ' !in head
    ensures ColorArgument(head + " " + rest) == rest
  {
    if head != [] {
      assert (head + " " + rest)[1..] == head[1..] + " " + rest;
      ArgumentAfterFirstSpace(head[1..], rest);
    } else {
      assert head + " " + rest == [' '] + rest;
    }
  }

  function Zeros(n: nat): (z: string)
    ensures |z| == n && forall i :: 0 <= i < n ==> z[i] == '0'
  {
    if n == 0 then "" else "0" + Zeros(n - 1)
  }

  /** The hex digits handleHex works on: zeros in front up to six characters. */
  function Padded(hex: string): string {
    if |hex| >= 6 then hex else Zeros(6 - |hex|) + hex
  }

  /** Leading zeros do not change the value of a numeral. */
  lemma {:induction false} ZerosKeepValue(n: nat, s: string, base: nat)
    ensures Value(Zeros(n) + s, base) == Value(s, base)
  {
    if n == 0 {
      assert Zeros(n) + s == s;
    } else {
      assert Zeros(n) + s == "0" + (Zeros(n - 1) + s);
      LeadingZero(Zeros(n - 1) + s, base);
      ZerosKeepValue(n - 1, s, base);
    }
  }

  /** Padding keeps the numeral's value and, for a numeral of hex digits,
      keeps it a numeral of hex digits. */
  lemma {:induction false} PaddingKeepsValue(hex: string)
    ensures Value(Padded(hex), 16) == Value(hex, 16)
    ensures AllDigits(hex, 16) ==> AllDigits(Padded(hex), 16)
  {
    if |hex| < 6 {
      ZerosKeepValue(6 - |hex|, hex, 16);
      var p := Padded(hex);
      assert forall i :: 6 - |hex| <= i < 6 ==> p[i] == hex[i - (6 - |hex|)];
    }
  }

  /** The loop of handleHex: prepends '0' until the text has six characters.
      Only zeros are added, in front, and text of six or more characters is
      left as it is. */
  method PadHex(hex: string) returns (padded: string)
    ensures padded == Padded(hex)
    ensures |padded| == if |hex| < 6 then 6 else |hex|
    ensures padded[|padded| - |hex|..] == hex
    ensures forall i :: 0 <= i < |padded| - |hex| ==> padded[i] == '0'
  {
    padded := hex;
    while |padded| < 6
      invariant |hex| <= |padded| <= if |hex| < 6 then 6 else |hex|
      invariant padded == Zeros(|padded| - |hex|) + hex
      decreases 6 - |padded|
    {
      padded := "0" + padded;
    }
  }

  /** The part of the embed handleHex builds that this model keeps: the
      author shown, the colour and the title. */
  datatype ColorEmbed = ColorEmbed(author: User, colour: int, title: string)

  /** handleHex. The colour library's verdict on "#" + digits is a parameter;
      the embed colour is the digits' value as strconv.ParseInt(…, 16, 32)
      reads it. None is the error return. */
  method HandleHex(author: User, hex: string, hexcolorAccepts: string -> bool)
    returns (response: Option<ColorEmbed>)
    ensures var title := "#" + Padded(hex);
            response.Some? <==> hexcolorAccepts(title) && ParseHexInt32(Padded(hex)).Some?
    ensures response.Some? ==>
              && response.value.author == author
              && response.value.title == "#" + Padded(hex)
              && response.value.colour == ParseHexInt32(Padded(hex)).value
  {
    var padded := PadHex(hex);
    var title := "#" + padded;
    if !hexcolorAccepts(title) {
      return None;
    }
    assert title[1..] == padded;
    var colorInt := ParseHexInt32(title[1..]);
    if colorInt.None? {
      return None;
    }
    response := Some(ColorEmbed(author, colorInt.value, title));
  }

  /** A numeral of hex digits whose value fits in 31 bits survives padding:
      the embed colour is its value. */
  lemma {:induction false} PaddedHexValue(hex: string)
    requires hex != [] && AllDigits(hex, 16) && Value(hex, 16) <= MaxInt32
    ensures ParseHexInt32(Padded(hex)) == Some(Value(hex, 16))
  {
    PaddingKeepsValue(hex);
    var p := Padded(hex);
    assert p != [] && AllDigits(p, 16);
    assert p[0] != '+' && p[0] != '-' by {
      assert DigitValue(p[0]) < 16;
    }
    assert Value(p, 16) == Value(hex, 16);
  }

  /** A user's colour printed with %x and padded reads back as that colour. */
  lemma {:induction false} UserColourRoundTrip(colour: nat)
    requires colour <= MaxInt32
    ensures ParseHexInt32(Padded(Format(colour, 16))) == Some(colour)
  {
    ValueOfFormat(colour, 16);
    PaddedHexValue(Format(colour, 16));
  }

  /** What the command sends to the channel. */
  datatype Reply = Text(channelId: string, text: string) | Complex(channelId: string, embed: ColorEmbed)

  const ParseFailureText := "Unable to parse color"

  /** colorCommand. The command-target resolver, the user-colour lookup
      and the colour library's verdict are parameters. A "#" argument makes
      the author the target and the rest of it the digits; any other argument
      goes to the resolver, and a nil target panics when its id is read. */
  method ColorCommandReply(m: Message, resolve: string -> Option<User>, userColor: string -> nat,
                           hexcolorAccepts: string -> bool)
    returns (r: Outcome<Reply>)
    ensures r.Done? ==> r.value.channelId == m.channelId
    ensures r.Done? && r.value.Text? ==> r.value.text == ParseFailureText
    ensures var arg := ColorArgument(m.content);
            |arg| > 0 && arg[0] == '#' ==>
              && r.Done?
              && (r.value.Complex? <==> hexcolorAccepts("#" + Padded(arg[1..])) && ParseHexInt32(Padded(arg[1..])).Some?)
              && (r.value.Complex? ==> r.value.embed == ColorEmbed(m.author, ParseHexInt32(Padded(arg[1..])).value, "#" + Padded(arg[1..])))
    ensures var arg := ColorArgument(m.content);
            !(|arg| > 0 && arg[0] == '#') ==>
              && (r.Panicked? <==> resolve(arg).None?)
              && (resolve(arg).Some? ==>
                    var target := resolve(arg).value;
                    var digits := Format(userColor(target.id), 16);
                    && r.Done?
                    && (r.value.Complex? <==> hexcolorAccepts("#" + Padded(digits)) && ParseHexInt32(Padded(digits)).Some?)
                    && (r.value.Complex? ==> r.value.embed.author == target && r.value.embed.title == "#" + Padded(digits)))
    ensures var arg := ColorArgument(m.content);
            !(|arg| > 0 && arg[0] == '#') && resolve(arg).Some? ==>
              var target := resolve(arg).value;
              var colour := userColor(target.id);
              colour <= MaxInt32 && hexcolorAccepts("#" + Padded(Format(colour, 16))) ==>
                r == Done(Complex(m.channelId, ColorEmbed(target, colour, "#" + Padded(Format(colour, 16)))))
  {
    var inputString := ColorArgument(m.content);
    var target: User;
    var hex: string;
    if |inputString| > 0 && inputString[0] == '#' {
      target := m.author;
      hex := inputString[1..];
    } else {
      var resolved := resolve(inputString);
      if resolved.None? {
        return Panicked;
      }
      target := resolved.value;
      var colour := userColor(target.id);
      hex := Format(colour, 16);
      if colour <= MaxInt32 {
        UserColourRoundTrip(colour);
      }
    }
    var response := HandleHex(target, hex, hexcolorAccepts);
    if response.None? {
      return Done(Text(m.channelId, ParseFailureText));
    }
    r := Done(Complex(m.channelId, response.value));
  }

  /** "!color #aabbcc": the argument is "#aabbcc". */
  lemma ColorArgumentExample()
    ensures ColorArgument("!color #aabbcc") == "#aabbcc"
  {
    ArgumentAfterFirstSpace("!color", "#aabbcc");
    assert "!color" + " " + "#aabbcc" == "!color #aabbcc";
  }

  lemma HexValueExample()
    ensures Value("aabbcc", 16) == 0xaabbcc
  {
    ValueSnoc("a", 'a', 16);
    assert "a" + ['a'] == "aa";
    ValueSnoc("aa", 'b', 16);
    assert "aa" + ['b'] == "aab";
    ValueSnoc("aab", 'b', 16);
    assert "aab" + ['b'] == "aabb";
    ValueSnoc("aabb", 'c', 16);
    assert "aabb" + ['c'] == "aabbc";
    ValueSnoc("aabbc", 'c', 16);
    assert "aabbc" + ['c'] == "aabbcc";
  }

  /** The digits "aabbcc" need no padding and their value is 0xaabbcc. */
  lemma ColorDigitsExample()
    ensures Padded("aabbcc") == "aabbcc"
    ensures ParseHexInt32("aabbcc") == Some(0xaabbcc)
  {
    HexValueExample();
    assert AllDigits("aabbcc", 16);
  }
}
