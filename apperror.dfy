/** The application's error kinds (internal/apperror) and the Go error chain they travel in:
    errors wrapped with fmt.Errorf("...: %w") stay discoverable through errors.As and errors.Is. */
module AppErrors {

  datatype Option<T> = None | Some(value: T)

  const CodeNotFound: string := "NOT_FOUND"
  const CodeConflict: string := "CONFLICT"
  const CodeInsufficientBalance: string := "INSUFFICIENT_BALANCE"
  const CodeValidation: string := "VALIDATION_ERROR"
  const CodeInternal: string := "INTERNAL_ERROR"

  /** What ErrNotFound.Error() prints after the entity name. */
  const NotFoundSuffix: string := " not found. Please check the ID and try again"

  /** What ErrConflict.Error() prints around the entity name. */
  const ConflictPrefix: string := "This "
  const ConflictSuffix: string := " already exists in the system"

  const InsufficientFundsMessage: string :=
    "Insufficient funds. Please check your account balance and try again"

  /** The four types that implement the AppError interface. */
  datatype AppError =
    | ErrNotFound(entity: string, id: int)
    | ErrConflict(entity: string, id: int)
    | ErrInsufficientBalance(accountID: int)
    | ErrValidation(message: string)
  {
    function Code(): (c: string)
      ensures c != CodeInternal
    {
      match this
      case ErrNotFound(_, _) => CodeNotFound
      case ErrConflict(_, _) => CodeConflict
      case ErrInsufficientBalance(_) => CodeInsufficientBalance
      case ErrValidation(_) => CodeValidation
    }

    /** The text of Error(). */
    function Error(): (t: string)
      // the entity's name, then the fixed not-found text
      ensures ErrNotFound? ==> |t| == |entity| + |NotFoundSuffix|
                               && t[..|entity|] == entity && t[|entity|..] == NotFoundSuffix
      // the fixed opening, the entity's name, then the fixed closing
      ensures ErrConflict? ==> |t| == |ConflictPrefix| + |entity| + |ConflictSuffix|
                               && t[..|ConflictPrefix|] == ConflictPrefix
                               && t[|ConflictPrefix|..|ConflictPrefix| + |entity|] == entity
                               && t[|ConflictPrefix| + |entity|..] == ConflictSuffix
      // a validation error's text is its message and nothing else
      ensures ErrValidation? ==> t == message
      ensures ErrInsufficientBalance? ==> t == InsufficientFundsMessage
    {
      match this
      case ErrNotFound(entity, _) => entity + NotFoundSuffix
      case ErrConflict(entity, _) => ConflictPrefix + entity + ConflictSuffix
      case ErrInsufficientBalance(_) => InsufficientFundsMessage
      case ErrValidation(message) => message
    }
  }

  /** Same AppError type, field values aside. */
  predicate SameKind(a: AppError, b: AppError)
  {
    match a
    case ErrNotFound(_, _) => b.ErrNotFound?
    case ErrConflict(_, _) => b.ErrConflict?
    case ErrInsufficientBalance(_) => b.ErrInsufficientBalance?
    case ErrValidation(_) => b.ErrValidation?
  }

  /** The five code constants are pairwise distinct. */
  lemma CodesDistinct()
    ensures CodeNotFound != CodeConflict && CodeNotFound != CodeInsufficientBalance
    ensures CodeNotFound != CodeValidation && CodeNotFound != CodeInternal
    ensures CodeConflict != CodeInsufficientBalance && CodeConflict != CodeValidation
    ensures CodeConflict != CodeInternal
    ensures CodeInsufficientBalance != CodeValidation && CodeInsufficientBalance != CodeInternal
    ensures CodeValidation != CodeInternal
  {
  }

  /** Code() identifies the kind of an AppError: equal codes exactly when equal kinds. */
  lemma CodeIdentifiesKind(a: AppError, b: AppError)
    ensures a.Code() == b.Code() <==> SameKind(a, b)
  {
    CodesDistinct();
  }

  /** ErrValidation.Error() is exactly its message. */
  lemma ValidationErrorText(m: string)
    ensures ErrValidation(m).Error() == m && ErrValidation(m).Code() == CodeValidation
  {
  }

  /** The not-found and conflict texts depend on the entity only, and the
      insufficient-balance text on nothing at all. */
  lemma MessagesOmitIDs(entity: string, id1: int, id2: int)
    ensures ErrNotFound(entity, id1).Error() == ErrNotFound(entity, id2).Error()
    ensures ErrConflict(entity, id1).Error() == ErrConflict(entity, id2).Error()
    ensures ErrInsufficientBalance(id1).Error() == ErrInsufficientBalance(id2).Error()
  {
  }

  /** A Go error value, as far as the core inspects it. */
  datatype Error =
    | App(app: AppError)                      // one of the AppError types
    | Pg(sqlState: string)                    // a *pgconn.PgError with its SQLSTATE
    | NoRows                                  // pgx.ErrNoRows
    | ConnFailure                             // a driver or connection failure without SQLSTATE
    | Plain(text: string)                     // an error made without %w
    | Wrapped(context: string, inner: Error)  // fmt.Errorf("<context>: %w", inner)
  {
    /** The errors reachable by repeated Unwrap, starting with this one. */
    function Chain(): (c: seq<Error>)
      ensures |c| > 0 && c[0] == this
    {
      if Wrapped? then [this] + inner.Chain() else [this]
    }

    /** errors.As(err, &appErr): the first AppError on the chain. */
    function AsAppError(): (r: Option<AppError>)
      ensures r.Some? ==> App(r.value) in Chain()
      ensures r.None? ==> forall e :: e in Chain() ==> !e.App?
    {
      match this
      case App(a) => Some(a)
      case Wrapped(_, inner) => inner.AsAppError()
      case _ => None
    }

    /** errors.As(err, &pgErr) followed by pgErr.Code: the SQLSTATE of the first PgError on the chain. */
    function PgCode(): (r: Option<string>)
      ensures r.Some? ==> Pg(r.value) in Chain()
      ensures r.None? ==> forall e :: e in Chain() ==> !e.Pg?
    {
      match this
      case Pg(code) => Some(code)
      case Wrapped(_, inner) => inner.PgCode()
      case _ => None
    }

    /** errors.Is(err, pgx.ErrNoRows). */
    predicate IsNoRows(): (r: bool)
      ensures r <==> NoRows in Chain()
    {
      match this
      case NoRows => true
      case Wrapped(_, inner) => inner.IsNoRows()
      case _ => false
    }

    /** The text of err.Error(). */
    function Text(): string
    {
      match this
      case App(a) => a.Error()
      case Pg(code) => "ERROR (SQLSTATE " + code + ")"
      case NoRows => "no rows in result set"
      case ConnFailure => "connection failure"
      case Plain(text) => text
      case Wrapped(context, inner) => context + ": " + inner.Text()
    }
  }

  /** SQLSTATE 40001, serialization_failure (class 40, transaction rollback). */
  const SerializationFailureCode: string := "40001"
  /** SQLSTATE 23505, unique_violation. */
  const UniqueViolationCode: string := "23505"

  predicate IsSerializationFailure(e: Error)
  {
    e.PgCode() == Some(SerializationFailureCode)
  }

  /** Wrapping with %w keeps every kind discoverable and changes only the text. */
  lemma {:induction false} WrapKeepsKind(context: string, e: Error)
    ensures Wrapped(context, e).AsAppError() == e.AsAppError()
    ensures Wrapped(context, e).PgCode() == e.PgCode()
    ensures Wrapped(context, e).IsNoRows() == e.IsNoRows()
    ensures Wrapped(context, e).Text() == context + ": " + e.Text()
  {
  }

  /** An AppError found by errors.As is the first one on the chain: no AppError
      precedes it in the Unwrap order. */
  lemma {:induction false} AsAppErrorFindsFirst(e: Error, k: nat)
    requires k < |e.Chain()| && e.Chain()[k].App?
    ensures e.AsAppError().Some?
    ensures (forall j :: 0 <= j < k ==> !e.Chain()[j].App?) ==> e.AsAppError() == Some(e.Chain()[k].app)
  {
    if e.Wrapped? && k > 0 {
      AsAppErrorFindsFirst(e.inner, k - 1);
      assert e.Chain() == [e] + e.inner.Chain();
      forall j | 0 <= j < k - 1 ensures e.inner.Chain()[j] == e.Chain()[j + 1] {}
    }
  }
}
