/** The small text file in which a user's two resource types are kept.

    The file is written over, never truncated; it survives that because every type is one digit and
    so every text has the same length. */
module StateFile {
  datatype ResourceType = RES_DEFAULT | RES_PICTURE | RES_VIDEO | RES_PACKAGE

  /** The fixed parts of the printed JSON text around its two numbers. */
  datatype Template = Template(head: string, middle: string, tail: string)

  datatype Types = NoTypes | Types(home: ResourceType, lock: ResourceType)

  /** The longest text LoadWallpaperState reads. */
  const READ_LIMIT := 254

  function TypeDigit(r: ResourceType): char {
    match r
    case RES_DEFAULT => '0'
    case RES_PICTURE => '1'
    case RES_VIDEO => '2'
    case RES_PACKAGE => '3'
  }

  function StateText(x: Template, home: ResourceType, lock: ResourceType): string {
    x.head + [TypeDigit(home)] + x.middle + [TypeDigit(lock)] + x.tail
  }

  function StateLength(x: Template): nat {
    |x.head| + |x.middle| + |x.tail| + 2
  }

  predicate IsDigit(c: char) {
    '0' <= c <= '3'
  }

  function DigitType(c: char): ResourceType
    requires IsDigit(c)
  {
    if c == '0' then RES_DEFAULT else if c == '1' then RES_PICTURE else if c == '2' then RES_VIDEO else RES_PACKAGE
  }

  /** The types a text of the template's shape names; what follows that shape is ignored. */
  function Parse(x: Template, s: string): Types {
    var i := |x.head|;
    var j := i + 1 + |x.middle|;
    if j + 1 + |x.tail| <= |s| && s[..i] == x.head && IsDigit(s[i]) && s[i + 1..j] == x.middle && IsDigit(s[j]) &&
       s[j + 1..j + 1 + |x.tail|] == x.tail
    then Types(DigitType(s[i]), DigitType(s[j]))
    else NoTypes
  }

  /** In the text, each number stands for a kind of wallpaper: 0 built-in, 1 picture, 2 video, 3 package. */
  lemma NumbersSay(x: Template, home: ResourceType, lock: ResourceType)
    ensures var s, i := StateText(x, home, lock), |x.head|;
            var j := i + 1 + |x.middle|;
            |s| == StateLength(x) && s[..i] == x.head && s[i + 1..j] == x.middle && s[j + 1..] == x.tail &&
            s[i] == (match home
                     case RES_DEFAULT => '0' case RES_PICTURE => '1' case RES_VIDEO => '2' case RES_PACKAGE => '3') &&
            s[j] == (match lock
                     case RES_DEFAULT => '0' case RES_PICTURE => '1' case RES_VIDEO => '2' case RES_PACKAGE => '3')
  {
  }

  lemma ParseUndoesPrint(x: Template, home: ResourceType, lock: ResourceType, rest: string)
    ensures Parse(x, StateText(x, home, lock) + rest) == Types(home, lock)
    ensures |StateText(x, home, lock)| == StateLength(x)
  {
    var s := StateText(x, home, lock) + rest;
    var i := |x.head|;
    var j := i + 1 + |x.middle|;
    assert s[..i] == x.head && s[i] == TypeDigit(home);
    assert s[i + 1..j] == x.middle && s[j] == TypeDigit(lock);
    assert s[j + 1..j + 1 + |x.tail|] == x.tail;
  }

  /** Only a text that starts with a printed pair of types is read as that pair. */
  lemma PrintUndoesParse(x: Template, s: string)
    requires Parse(x, s).Types?
    ensures StateText(x, Parse(x, s).home, Parse(x, s).lock) <= s
  {
    var i := |x.head|;
    var j := i + 1 + |x.middle|;
    var p := Parse(x, s);
    assert TypeDigit(p.home) == s[i] && TypeDigit(p.lock) == s[j];
    assert s[..j + 1 + |x.tail|] == s[..i] + [s[i]] + s[i + 1..j] + [s[j]] + s[j + 1..j + 1 + |x.tail|];
    assert StateText(x, p.home, p.lock) == s[..j + 1 + |x.tail|];
  }
}
