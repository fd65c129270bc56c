/**
 * Token kinds and literal payloads of the Lox front end, with the two
 * `Display` tables: the text of each kind, and the text of a literal.
 */
module TokenTypes {

  import opened Options

  datatype TokenType =
    // Single-character tokens.
    | LeftParen | RightParen | LeftBrace | RightBrace | Comma | Dot
    | Minus | Plus | Semicolon | Slash | Star
    // One or two character tokens.
    | Bang | BangEqual | Equal | EqualEqual
    | Greater | GreaterEqual | Less | LessEqual
    // Literals.
    | Identifier | String | Number
    // Keywords.
    | And | Class | Else | False | Fun | For | If | Nil
    | Or | Print | Return | Super | This | True | Var | While
    // Sentinels.
    | Eof | Error

  /** The decoded payload of a token. A number keeps its lexeme text. */
  datatype Literal =
    | StringLit(text: string)
    | NumberLit(lexeme: string)
    | IdentifierLit(name: string)

  predicate IsSingleChar(k: TokenType) {
    k in {LeftParen, RightParen, LeftBrace, RightBrace, Comma, Dot, Minus, Plus, Semicolon, Slash, Star}
  }

  /** The four operators that may take a following `=`. */
  predicate IsOneChar(k: TokenType) {
    k in {Bang, Equal, Greater, Less}
  }

  predicate IsTwoChar(k: TokenType) {
    k in {BangEqual, EqualEqual, GreaterEqual, LessEqual}
  }

  /** The kinds whose tokens carry a literal payload. */
  predicate IsLiteralKind(k: TokenType) {
    k in {Identifier, String, Number}
  }

  predicate IsKeyword(k: TokenType) {
    k in {And, Class, Else, False, Fun, For, If, Nil, Or, Print, Return, Super, This, True, Var, While}
  }

  /** The two-character operator a one-character operator becomes when `=` follows it. */
  function WithEqual(k: TokenType): (r: TokenType)
    requires IsOneChar(k)
    ensures IsTwoChar(r)
    ensures Display(r) == Display(k) + "="
  {
    match k
    case Bang => BangEqual
    case Equal => EqualEqual
    case Greater => GreaterEqual
    case Less => LessEqual
  }

  /** The `Display` text of a token kind. */
  function Display(k: TokenType): (r: string)
    ensures IsLiteralKind(k) <==> r == ""
    ensures IsSingleChar(k) ==> |r| == 1
    ensures k == Eof <==> r == "\0"
    ensures k == Error <==> r == "error"
  {
    match k
    case LeftParen => "("
    case RightParen => ")"
    case LeftBrace => "{"
    case RightBrace => "}"
    case Comma => ","
    case Dot => "."
    case Minus => "-"
    case Plus => "+"
    case Semicolon => ";"
    case Slash => "/"
    case Star => "*"
    case Bang => "!"
    case BangEqual => "!="
    case Equal => "="
    case EqualEqual => "=="
    case Greater => ">"
    case GreaterEqual => ">="
    case Less => "<"
    case LessEqual => "<="
    case Identifier => ""
    case String => ""
    case Number => ""
    case And => "and"
    case Class => "class"
    case Else => "else"
    case False => "false"
    case Fun => "fun"
    case For => "for"
    case If => "if"
    case Nil => "nil"
    case Or => "or"
    case Print => "print"
    case Return => "return"
    case Super => "super"
    case This => "this"
    case True => "true"
    case Var => "var"
    case While => "while"
    case Eof => "\0"
    case Error => "error"
  }

  /** The `Display` text of a literal payload. */
  function LiteralDisplay(l: Literal): (r: string)
    ensures l.StringLit? ==> r == l.text
    ensures l.IdentifierLit? ==> r == l.name
  {
    match l
    case StringLit(s) => s
    case NumberLit(s) => s
    case IdentifierLit(s) => s
  }

  /** The derived `Debug` name of a kind, which `Token::to_string` prints. */
  function DebugName(k: TokenType): (r: string)
    ensures |r| > 0 && ' ' !in r
  {
    match k
    case LeftParen => "LeftParen"
    case RightParen => "RightParen"
    case LeftBrace => "LeftBrace"
    case RightBrace => "RightBrace"
    case Comma => "Comma"
    case Dot => "Dot"
    case Minus => "Minus"
    case Plus => "Plus"
    case Semicolon => "Semicolon"
    case Slash => "Slash"
    case Star => "Star"
    case Bang => "Bang"
    case BangEqual => "BangEqual"
    case Equal => "Equal"
    case EqualEqual => "EqualEqual"
    case Greater => "Greater"
    case GreaterEqual => "GreaterEqual"
    case Less => "Less"
    case LessEqual => "LessEqual"
    case Identifier => "Identifier"
    case String => "String"
    case Number => "Number"
    case And => "And"
    case Class => "Class"
    case Else => "Else"
    case False => "False"
    case Fun => "Fun"
    case For => "For"
    case If => "If"
    case Nil => "Nil"
    case Or => "Or"
    case Print => "Print"
    case Return => "Return"
    case Super => "Super"
    case This => "This"
    case True => "True"
    case Var => "Var"
    case While => "While"
    case Eof => "Eof"
    case Error => "Error"
  }

  /**
   * Reads a kind back from its `Display` text, by the first character, the
   * length and, where those tie, the second character. It is meant only for
   * the texts `Display` produces; on those it inverts `Display`.
   */
  function KindOfDisplay(s: string): Option<TokenType> {
    if |s| == 0 then None
    else if |s| == 1 then
      match s[0]
      case '(' => Some(LeftParen)
      case ')' => Some(RightParen)
      case '{' => Some(LeftBrace)
      case '}' => Some(RightBrace)
      case ',' => Some(Comma)
      case '.' => Some(Dot)
      case '-' => Some(Minus)
      case '+' => Some(Plus)
      case ';' => Some(Semicolon)
      case '/' => Some(Slash)
      case '*' => Some(Star)
      case '!' => Some(Bang)
      case '=' => Some(Equal)
      case '>' => Some(Greater)
      case '<' => Some(Less)
      case '\0' => Some(Eof)
      case _ => None
    else
      match s[0]
      case '!' => Some(BangEqual)
      case '=' => Some(EqualEqual)
      case '>' => Some(GreaterEqual)
      case '<' => Some(LessEqual)
      case 'a' => Some(And)
      case 'c' => Some(Class)
      case 'e' => if |s| == 4 then Some(Else) else Some(Error)
      case 'f' => if |s| == 5 then Some(False) else if s[1] == 'u' then Some(Fun) else Some(For)
      case 'i' => Some(If)
      case 'n' => Some(Nil)
      case 'o' => Some(Or)
      case 'p' => Some(Print)
      case 'r' => Some(Return)
      case 's' => Some(Super)
      case 't' => if s[1] == 'h' then Some(This) else Some(True)
      case 'v' => Some(Var)
      case 'w' => Some(While)
      case _ => None
  }

  /** Every kind without a literal payload is read back from its `Display` text. */
  lemma DisplayRoundTrip(k: TokenType)
    requires !IsLiteralKind(k)
    ensures KindOfDisplay(Display(k)) == Some(k)
  {
    if IsSingleChar(k) {
      DisplayRoundTripSingle(k);
    } else if IsOneChar(k) || IsTwoChar(k) {
      DisplayRoundTripOperator(k);
    } else if k in {And, Class, Else, False, Fun, For, If, Nil} {
      DisplayRoundTripWords(k);
    } else if k in {Or, Print, Return, Super, This, True, Var, While} {
      DisplayRoundTripMoreWords(k);
    } else {
      DisplayRoundTripSentinel(k);
    }
  }

  // The round trip above, a few kinds at a time.

  lemma DisplayRoundTripSingle(k: TokenType)
    requires IsSingleChar(k)
    ensures KindOfDisplay(Display(k)) == Some(k)
  {
  }

  lemma DisplayRoundTripOperator(k: TokenType)
    requires IsOneChar(k) || IsTwoChar(k)
    ensures KindOfDisplay(Display(k)) == Some(k)
  {
  }

  lemma DisplayRoundTripWords(k: TokenType)
    requires k in {And, Class, Else, False, Fun, For, If, Nil}
    ensures KindOfDisplay(Display(k)) == Some(k)
  {
  }

  lemma DisplayRoundTripMoreWords(k: TokenType)
    requires k in {Or, Print, Return, Super, This, True, Var, While}
    ensures KindOfDisplay(Display(k)) == Some(k)
  {
  }

  lemma DisplayRoundTripSentinel(k: TokenType)
    requires k in {Eof, Error}
    ensures KindOfDisplay(Display(k)) == Some(k)
  {
  }

  /** `Display` tells apart every two kinds except the three literal kinds, which all print as the empty text. */
  lemma DisplayInjective(a: TokenType, b: TokenType)
    requires !IsLiteralKind(a) && !IsLiteralKind(b)
    requires Display(a) == Display(b)
    ensures a == b
  {
    DisplayRoundTrip(a);
    DisplayRoundTrip(b);
  }

  /**
   * Reads a kind back from its debug name, by the first character, the
   * length and, where those tie, one more character. It is meant only for
   * the names `DebugName` produces; on those it inverts `DebugName`.
   */
  function KindOfDebugName(s: string): Option<TokenType> {
    if |s| < 2 then None
    else
      match s[0]
      case 'L' =>
        if |s| == 4 then Some(Less)
        else if |s| > 4 && s[4] == 'P' then Some(LeftParen)
        else if |s| > 4 && s[4] == 'B' then Some(LeftBrace)
        else Some(LessEqual)
      case 'R' =>
        if |s| == 6 then Some(Return)
        else if |s| > 5 && s[5] == 'P' then Some(RightParen)
        else Some(RightBrace)
      case 'C' => if s[1] == 'o' then Some(Comma) else Some(Class)
      case 'D' => Some(Dot)
      case 'M' => Some(Minus)
      case 'P' => if |s| == 4 then Some(Plus) else Some(Print)
      case 'S' =>
        if |s| == 9 then Some(Semicolon)
        else if |s| == 4 then Some(Star)
        else if |s| == 6 then Some(String)
        else if s[1] == 'l' then Some(Slash)
        else Some(Super)
      case 'B' => if |s| == 4 then Some(Bang) else Some(BangEqual)
      case 'E' =>
        if |s| == 10 then Some(EqualEqual)
        else if |s| == 4 then Some(Else)
        else if |s| == 3 then Some(Eof)
        else if s[1] == 'q' then Some(Equal)
        else Some(Error)
      case 'G' => if |s| == 7 then Some(Greater) else Some(GreaterEqual)
      case 'I' => if |s| == 2 then Some(If) else Some(Identifier)
      case 'N' => if |s| == 3 then Some(Nil) else Some(Number)
      case 'A' => Some(And)
      case 'F' => if |s| == 5 then Some(False) else if s[1] == 'u' then Some(Fun) else Some(For)
      case 'O' => Some(Or)
      case 'T' => if s[1] == 'h' then Some(This) else Some(True)
      case 'V' => Some(Var)
      case 'W' => Some(While)
      case _ => None
  }

  /** Every kind is read back from its debug name. */
  lemma DebugNameRoundTrip(k: TokenType)
    ensures KindOfDebugName(DebugName(k)) == Some(k)
  {
    if IsSingleChar(k) {
      DebugNameRoundTripSingle(k);
    } else if IsOneChar(k) || IsTwoChar(k) {
      DebugNameRoundTripOperator(k);
    } else if k in {And, Class, Else, False, Fun, For, If, Nil} {
      DebugNameRoundTripWords(k);
    } else if k in {Or, Print, Return, Super, This, True, Var, While} {
      DebugNameRoundTripMoreWords(k);
    } else {
      DebugNameRoundTripOthers(k);
    }
  }

  // The round trip above, a few kinds at a time.

  lemma DebugNameRoundTripSingle(k: TokenType)
    requires IsSingleChar(k)
    ensures KindOfDebugName(DebugName(k)) == Some(k)
  {
  }

  lemma DebugNameRoundTripOperator(k: TokenType)
    requires IsOneChar(k) || IsTwoChar(k)
    ensures KindOfDebugName(DebugName(k)) == Some(k)
  {
  }

  lemma DebugNameRoundTripWords(k: TokenType)
    requires k in {And, Class, Else, False, Fun, For, If, Nil}
    ensures KindOfDebugName(DebugName(k)) == Some(k)
  {
  }

  lemma DebugNameRoundTripMoreWords(k: TokenType)
    requires k in {Or, Print, Return, Super, This, True, Var, While}
    ensures KindOfDebugName(DebugName(k)) == Some(k)
  {
  }

  lemma DebugNameRoundTripOthers(k: TokenType)
    requires IsLiteralKind(k) || k in {Eof, Error}
    ensures KindOfDebugName(DebugName(k)) == Some(k)
  {
  }

  /** Distinct kinds have distinct debug names. */
  lemma DebugNameInjective(a: TokenType, b: TokenType)
    requires DebugName(a) == DebugName(b)
    ensures a == b
  {
    DebugNameRoundTrip(a);
    DebugNameRoundTrip(b);
  }
}
