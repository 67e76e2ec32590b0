/** Records shared by the storage services and the stores: the `User`, `Image` and
    `ImageVersion` interfaces of the application, with every `Date` held as a
    millisecond timestamp, plus the Option/Result wrappers used for `null` returns and
    thrown errors. */
module Types {

  datatype Option<+T> = None | Some(value: T) {
    predicate IsFailure() { None? }
    function PropagateFailure<U>(): Option<U> requires None? { None }
    function Extract(): T requires Some? { value }
  }

  /** `Failure` carries the message of an error the source throws or a promise rejects with. */
  datatype Result<+T> = Success(value: T) | Failure(error: string) {
    predicate IsFailure() { Failure? }
    function PropagateFailure<U>(): Result<U> requires Failure? { Failure(error) }
    function Extract(): T requires Success? { value }
  }

  /** Milliseconds since the epoch, as `Date.getTime()` returns them. */
  type Timestamp = int

  datatype Status = Generating | Completed | Failed

  datatype Metadata = Metadata(width: int, height: int, format: string, size: int)

  datatype ImageVersion = ImageVersion(
    id: string,
    imageId: string,
    prompt: string,
    imageUrl: string,
    createdAt: Timestamp,
    parentVersionId: Option<string>)

  datatype Image = Image(
    id: string,
    userId: string,
    prompt: string,
    imageUrl: string,
    thumbnail: Option<string>,
    status: Status,
    createdAt: Timestamp,
    updatedAt: Timestamp,
    metadata: Metadata,
    versions: seq<ImageVersion>)

  datatype User = User(
    id: string,
    email: string,
    name: string,
    firstName: string,
    lastName: string,
    apiKey: Option<string>,
    createdAt: Timestamp,
    updatedAt: Timestamp)

  /** The sort keys of the listing and cleanup comparators. */
  function CreatedAt(img: Image): int {
    img.createdAt
  }

  function UpdatedAt(img: Image): int {
    img.updatedAt
  }

  function VersionCreatedAt(v: ImageVersion): int {
    v.createdAt
  }
}
