/** The English amount words, singular and plural, by what they mean. */
module EnglishSpellings {
  import opened Numerals

  function Counts(n: nat): set<string> {
    if n == 1 then {"one"} else if n == 2 then {"two"} else if n == 3 then {"three"} else if n == 4 then {"four"}
    else if n == 5 then {"five"} else if n == 6 then {"six"} else if n == 7 then {"seven"} else if n == 8 then {"eight"}
    else if n == 9 then {"nine"} else if n == 10 then {"ten"} else if n == 11 then {"eleven"}
    else if n == 12 then {"twelve"} else if n == 13 then {"thirteen"} else if n == 14 then {"fourteen"}
    else if n == 15 then {"fifteen"} else if n == 16 then {"sixteen"} else if n == 17 then {"seventeen"}
    else if n == 18 then {"eighteen"} else if n == 19 then {"nineteen"} else {}
  }

  function TensWords(n: nat): set<string> {
    if n == 20 then {"twenty"} else if n == 30 then {"thirty"} else if n == 40 then {"forty"}
    else if n == 50 then {"fifty"} else if n == 60 then {"sixty"} else if n == 70 then {"seventy"}
    else if n == 80 then {"eighty"} else if n == 90 then {"ninety"} else {}
  }

  const HUNDREDS: set<string> := {"hundred", "hundreds"}
  const THOUSANDS: set<string> := {"thousand", "thousands"}
  const MILLIONS: set<string> := {"million", "millions"}

  /** The words an article may stand before as "one". */
  const SCALES: set<string> := HUNDREDS + THOUSANDS + MILLIONS

  const ARTICLES: set<string> := {"a", "an"}

  /** Every spelling of a word with this meaning. */
  function Spellings(l: Lexeme): set<string> {
    match l
    case Add(n) => Counts(n) + TensWords(n)
    case Hundred => HUNDREDS
    case Scale(k) => if k == 1000 then THOUSANDS else if k == 1_000_000 then MILLIONS else {}
    case _ => {}
  }
}
