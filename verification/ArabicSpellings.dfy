/** The Arabic amount words, each with every way it may be spelled, by what it means. */
module ArabicSpellings {
  import opened Numerals

  /** One to ten: masculine, feminine and dialect forms. */
  function Counts(n: nat): set<string> {
    if n == 1 then {"واحد", "واحدة", "احد"}
    else if n == 2 then {"اثنين", "اثنان", "اثنتين", "اتنين"}
    else if n == 3 then {"ثلاثة", "ثلاث"}
    else if n == 4 then {"اربعة", "اربع"}
    else if n == 5 then {"خمسة", "خمس"}
    else if n == 6 then {"ستة", "ست"}
    else if n == 7 then {"سبعة", "سبع"}
    else if n == 8 then {"ثمانية", "ثماني", "ثمان"}
    else if n == 9 then {"تسعة", "تسع"}
    else if n == 10 then {"عشرة", "عشر"}
    else {}
  }

  /** Twenty to ninety, in both cases. */
  function TensWords(n: nat): set<string> {
    if n == 20 then {"عشرون", "عشرين"}
    else if n == 30 then {"ثلاثون", "ثلاثين"}
    else if n == 40 then {"اربعون", "اربعين"}
    else if n == 50 then {"خمسون", "خمسين"}
    else if n == 60 then {"ستون", "ستين"}
    else if n == 70 then {"سبعون", "سبعين"}
    else if n == 80 then {"ثمانون", "ثمانين"}
    else if n == 90 then {"تسعون", "تسعين"}
    else {}
  }

  /** The forms of "hundred" that are glued onto a count. */
  const GLUED_HUNDREDS: set<string> := {"مائة", "مئة", "ميه", "مية", "مئه"}

  /** Two to nine hundred in one word. */
  function GluedWords(n: nat): set<string> {
    if n % 100 == 0 && 200 <= n <= 900
    then set count, hundred | count in Counts(n / 100) && hundred in GLUED_HUNDREDS :: count + hundred
    else {}
  }

  const HUNDREDS: set<string> := {"مئة", "مائة", "مائه", "مئه", "ميه", "مية"}
  const TWO_HUNDREDS: set<string> := {"مئتان", "مائتان", "مئتين", "مائتين", "ميتين"}
  const THOUSANDS: set<string> := {"الف", "الاف"}
  const TWO_THOUSANDS: set<string> := {"الفان", "الفين"}
  const MILLIONS: set<string> := {"مليون", "ملايين"}
  const TWO_MILLIONS: set<string> := {"مليونين", "مليونان"}

  /** Every spelling of a word with this meaning. */
  function Spellings(l: Lexeme): set<string> {
    match l
    case Add(n) => Counts(n) + TensWords(n) + GluedWords(n)
    case Hundred => HUNDREDS
    case DualHundred => TWO_HUNDREDS
    case Scale(k) => if k == 1000 then THOUSANDS else if k == 1_000_000 then MILLIONS else {}
    case DualScale(k) => if k == 1000 then TWO_THOUSANDS else if k == 1_000_000 then TWO_MILLIONS else {}
  }
}
