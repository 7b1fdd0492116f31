# Posts API: cache-aside post service

A model of the posts service of the posts-api backend. The service keeps posts in two
places: an authoritative relational store (the `post` table) and a disposable Redis
cache of the same posts, keyed by post id. Users live in a third table (`app_user`).

- **Reads** are served from the cache. On a miss they fall back to the store and fill
  the cache from the result.
- **Writes** check that the referenced user exists, write the store, then mirror the
  stored post into the cache.
- **Delete** removes a post from both places.

The model is layered like the application:

- `Common`: ids, nullable values (`Option`), and the exceptions as `Result`/`Failure`.
- `UserDomain`, `PostDomain`: the domain records. They also define `Lists`, which says
  what it means for a list returned by a repository to be exactly a collection, in some
  order.
- `UserMapper`, `PostMapper`: the field-copying mappers between domain records, table
  rows, cache entries and DTOs.
- `UserStore.UserTable`: the user table, with a map of rows and the identity counter.
- `PostPersistence.PostPostgresRepository`: the post table. It holds rows that embed
  their author row. `Posts()` is the store's view as domain posts, read back through
  `EntityToPost`.
- `PostCaching.RedisPostRepository`: the cache entries. `Posts()` is the cache's view,
  read back through `PostCacheEntityToPost`.
- `UserApplication.UserService`, `PostApplication.PostService`: the two services. Both
  are classes whose methods update the tables in place.
- `Scenarios`: whole flows and properties that relate several calls.

`PostService.Coherent()` says that every cached post is also in the store, equal to the
stored one. Every service operation except `Update` preserves it: each such method
ensures `old(Coherent()) ==> Coherent()`. No operation requires it, because the service
never checks it.

`Update` breaks it in one field. The store's update stamps the row's update time only
when the transaction flushes, which happens after the post has been read back. So the
post that `Update` returns and caches still carries the previous update time, while the
stored row carries the new one. `PostService.CoherentButUpdateTime()` is the same
relation up to update times, and every operation, `Update` included, preserves it.
`Scenarios.UpdateLeavesStaleUpdateTime` shows the two copies differing.

The service keeps a known staleness quirk: a non-empty cache result is taken to be
complete. `FindAll` and `FindAllByUserId` say so in their contracts, and
`Scenarios.StaleListing` shows a listing that misses a stored post.

Identifiers come from a counter that stands for the identity column, but contracts only
promise an id not already in use. The clock is a `now` parameter that stands for the
moment of the database write.

## Model

| member | source | states |
|---|---|---|
| PostApplication.PostService.FindAll | src/main/java/com/nasor/postsapi/post/application/PostServiceImpl.java:25-42 | A non-empty cache is returned exactly, as a list of the cached posts, with store and cache unchanged, even when the store holds more. An empty cache leads to a listing of exactly the stored posts, and afterwards the cache view equals the store view. An empty store leaves the cache untouched. Coherence is preserved, both exactly and up to update times. |
| PostApplication.PostService.FindById | src/main/java/com/nasor/postsapi/post/application/PostServiceImpl.java:44-60 | A cache hit returns the cached post and changes nothing. A miss with the id absent from the store fails with not-found. A miss with a stored post returns that post and caches it under its id, with no other entry changed. Coherence is preserved, both exactly and up to update times. |
| PostApplication.PostService.FindAllByUserId | src/main/java/com/nasor/postsapi/post/application/PostServiceImpl.java:62-83 | A non-empty cached list for the user is returned exactly, with no check that the user exists. Otherwise an unknown user fails. Otherwise the user's stored posts are returned exactly and added to the cache, which is untouched when there are none. The store never changes. Coherence is preserved, both exactly and up to update times. |
| PostApplication.PostService.Save | src/main/java/com/nasor/postsapi/post/application/PostServiceImpl.java:85-97 | A null or unknown user id fails and changes neither store nor cache. Otherwise the store gains exactly one post under a fresh id, with the input's fields and both timestamps set to the write time, and the cache gains the same post under that id. Coherence is preserved, both exactly and up to update times. |
| PostApplication.PostService.Update | src/main/java/com/nasor/postsapi/post/application/PostServiceImpl.java:99-110 | Errors come in the source's order: null user id, unknown user, null post id, post absent from the store. Any failure changes neither store nor cache. Success happens exactly when the user is known and the post is stored. It overwrites title, content and user id and keeps the id and creation time. The store gets the new update time, but the returned and cached post keeps the previous one. No other entry changes. Exact coherence is kept everywhere except at that id, and coherence up to update times is kept. |
| PostApplication.PostService.Delete | src/main/java/com/nasor/postsapi/post/application/PostServiceImpl.java:112-119 | An id absent from the store fails and changes nothing. Otherwise the id is removed from both store and cache and every other entry is kept. Coherence is preserved, both exactly and up to update times. |
| PostDomain.ListsEmpty | src/main/java/com/nasor/postsapi/post/application/PostServiceImpl.java:27-37 | A list that is exactly a collection is empty iff the collection is. The emptiness tests of the service therefore decide on the cache and store contents. |
| PostDomain.ListsOmits | src/main/java/com/nasor/postsapi/post/application/PostServiceImpl.java:27-32 | A listing of a collection never contains a post filed under an id the collection lacks. A listing served from a partial cache misses the stored posts the cache lacks. |
| PostDomain.ListPosts | src/main/java/com/nasor/postsapi/post/infraestructure/repository/PostPostgresRepository.java:57-59 | The list built from a keyed collection holds every post exactly once, each under its own id. |
| PostPersistence.PostPostgresRepository.Save | src/main/java/com/nasor/postsapi/post/infraestructure/repository/PostPostgresRepository.java:24-34 | Success happens exactly when the user id is known. A null user id and an unknown user fail distinctly and leave the table unchanged. On success the table gains exactly one row under a fresh id, whose author is the user's row and whose timestamps are the write time. The returned post is the input with that id and those timestamps. |
| PostPersistence.PostPostgresRepository.Update | src/main/java/com/nasor/postsapi/post/infraestructure/repository/PostPostgresRepository.java:36-51 | Errors come in the source's order: null id, post not found, null user id, user not found. A failure leaves the table unchanged. Success happens exactly when post and user exist. Only that row changes: its title, content and author are replaced and its update time is set. Its id and creation time stay. The returned post is the old one with title, content and user id replaced, and it still carries the previous update time, because the stamp is written when the transaction flushes, after the post is read back. |
| PostPersistence.PostPostgresRepository.FindById | src/main/java/com/nasor/postsapi/post/infraestructure/repository/PostPostgresRepository.java:53-55 | A post is returned iff the id is stored. It is the stored post, carrying that id and both timestamps. |
| PostPersistence.PostPostgresRepository.FindAll | src/main/java/com/nasor/postsapi/post/infraestructure/repository/PostPostgresRepository.java:57-59 | Returns every stored post exactly once. |
| PostPersistence.PostPostgresRepository.FindAllByUserId | src/main/java/com/nasor/postsapi/post/infraestructure/repository/PostPostgresRepository.java:61-63 | Returns exactly the stored posts whose author id is the given user's, once each. |
| PostPersistence.PostPostgresRepository.DeleteById | src/main/java/com/nasor/postsapi/post/infraestructure/repository/PostPostgresRepository.java:65-67 | Removes that id and nothing else. An absent id is not an error. |
| PostPersistence.PostPostgresRepository.FindUserIdByPostId | src/main/java/com/nasor/postsapi/post/infraestructure/repository/PostPostgresRepository.java:69-73 | Returns the author id iff the post exists, and it is the stored post's user id. |
| PostPersistence.Inserted | src/main/java/com/nasor/postsapi/post/infraestructure/entity/PostEntity.java:19-41 | The identity column and the creation and update timestamps are the only fields the database fills in on insert. |
| PostCaching.RedisPostRepository.Save | src/main/java/com/nasor/postsapi/post/infraestructure/repository/RedisPostRepositoryImpl.java:22-26 | The entry under the post's id becomes the post's cache entity, replacing any earlier one and leaving the others unchanged. What is read back is the post itself. |
| PostCaching.RedisPostRepository.FindById | src/main/java/com/nasor/postsapi/post/infraestructure/repository/RedisPostRepositoryImpl.java:28-31 | A post is returned iff the id is cached, and it is the cached post with that id. |
| PostCaching.RedisPostRepository.FindAll | src/main/java/com/nasor/postsapi/post/infraestructure/repository/RedisPostRepositoryImpl.java:33-37 | Returns every cached post exactly once. |
| PostCaching.RedisPostRepository.FindAllByUserId | src/main/java/com/nasor/postsapi/post/infraestructure/repository/RedisPostRepositoryImpl.java:39-43 | Returns exactly the cached posts whose user id is the given one, once each. |
| PostCaching.RedisPostRepository.DeleteById | src/main/java/com/nasor/postsapi/post/infraestructure/repository/RedisPostRepositoryImpl.java:45-48 | Removes that id and nothing else. An absent id leaves the cache as it was and is not an error. |
| PostCaching.RedisPostRepository.SaveAll | src/main/java/com/nasor/postsapi/post/infraestructure/repository/RedisPostRepositoryImpl.java:50-53 | Ends in the same cache as saving the posts one by one, in order. |
| PostCaching.SavedListing | src/main/java/com/nasor/postsapi/post/infraestructure/repository/RedisPostRepositoryImpl.java:50-53 | Saving a listing of a collection adds exactly that collection to the cache view. Entries under the same ids are replaced and all others are kept. |
| PostCaching.SavedAllAt | src/main/java/com/nasor/postsapi/post/infraestructure/repository/RedisPostRepositoryImpl.java:50-53 | After saving a list, a post that no later post replaces is cached under its id. |
| PostCaching.SavedAllElsewhere | src/main/java/com/nasor/postsapi/post/infraestructure/repository/RedisPostRepositoryImpl.java:50-53 | Saving a list keeps every entry under an id that no post of the list carries. |
| UserApplication.UserService.CreateUser | src/main/java/com/nasor/postsapi/user/application/UserServiceImpl.java:18-24 | Fails with "email in use" iff some user already has that email, and then the table is unchanged. Otherwise exactly one user is added, under a fresh id and with the given names and email. Pairwise distinct emails stay distinct. |
| UserApplication.UserService.Update | src/main/java/com/nasor/postsapi/user/application/UserServiceImpl.java:26-36 | A null id fails, and so does an id not in the table; either failure leaves the table unchanged. Success happens exactly when the id exists. It overwrites first name, last name and email and keeps the id. No other user changes and the identity counter does not move. |
| UserApplication.UserService.FindAll | src/main/java/com/nasor/postsapi/user/application/UserServiceImpl.java:38-41 | Returns every user exactly once and changes nothing. |
| UserApplication.UserService.FindById | src/main/java/com/nasor/postsapi/user/application/UserServiceImpl.java:43-46 | Returns a user iff the id is in the table, and it is that user. |
| UserDomain.ListUsers | src/main/java/com/nasor/postsapi/user/infraestructure/repository/SqlUserRepository.java:35-41 | The list built from the user table holds every user exactly once, each under its own id. |
| PostMapper.EntityToPost | src/main/java/com/nasor/postsapi/post/infraestructure/mapper/PostMapperImpl.java:19-29 | The post's user id is the author's id. Id, title, content and both timestamps are copied from the row. |
| PostMapper.PostToEntity | src/main/java/com/nasor/postsapi/post/infraestructure/mapper/PostMapperImpl.java:31-39 | The row carries the given author. Reading it back gives the post with the author's id and no timestamps. |
| PostMapper.EntityRoundTrip | src/main/java/com/nasor/postsapi/post/infraestructure/mapper/PostMapperImpl.java:19-39 | Writing back a row that was read, with its own author, loses only the timestamps. |
| PostMapper.PostToDto | src/main/java/com/nasor/postsapi/post/infraestructure/mapper/PostMapperImpl.java:41-55 | Id, title, content and timestamps come from the post. The user summary is the user mapper's, and its full name is first name, one space, last name. |
| PostMapper.RegisterPostToPost | src/main/java/com/nasor/postsapi/post/infraestructure/mapper/PostMapperImpl.java:57-64 | The new post has no id and no timestamps. It takes title and content from the request and the user id from the argument. |
| PostMapper.PostCacheEntityToPost | src/main/java/com/nasor/postsapi/post/infraestructure/mapper/PostMapperImpl.java:66-76 | The post's user id is the entry's author id. Id, title, content and both timestamps are copied from the entry. |
| PostMapper.PostToCacheEntity | src/main/java/com/nasor/postsapi/post/infraestructure/mapper/PostMapperImpl.java:78-88 | The entry is filed under the post's id, and reading it back gives the post in all six fields. |
| PostMapper.CacheEntityRoundTrip | src/main/java/com/nasor/postsapi/post/infraestructure/mapper/PostMapperImpl.java:66-88 | Writing back a cache entry that was read gives the same entry. |
| UserMapper.FullName | src/main/java/com/nasor/postsapi/user/infraestructure/mapper/UserMapperImp.java:22-29 | The display name is the first name, one space, then the last name. |
| UserMapper.UserToUserDto | src/main/java/com/nasor/postsapi/user/infraestructure/mapper/UserMapperImp.java:22-29 | Copies id and email. The full name is FullName of the user's names. |
| UserMapper.EntityToUser | src/main/java/com/nasor/postsapi/user/infraestructure/mapper/UserMapperImp.java:12-20 | Id, first name, last name and email are each copied into the same field. |
| UserMapper.UserToUserEntity | src/main/java/com/nasor/postsapi/user/infraestructure/mapper/UserMapperImp.java:31-39 | Reading back the row written for a user gives that user. |
| UserMapper.EntityRoundTrip | src/main/java/com/nasor/postsapi/user/infraestructure/mapper/UserMapperImp.java:12-39 | Writing back a row that was read gives the same row. |
| UserMapper.UpdateDtoToUser | src/main/java/com/nasor/postsapi/user/infraestructure/mapper/UserMapperImp.java:41-48 | The user has no id and carries exactly the request's three fields. |
| UserMapper.FullNameUnambiguous | src/main/java/com/nasor/postsapi/user/infraestructure/mapper/UserMapperImp.java:27 | When neither first name contains a space, equal display names mean equal first and last names. |
| UserMapper.FullNameAmbiguous | src/main/java/com/nasor/postsapi/user/infraestructure/mapper/UserMapperImp.java:27 | Two different name pairs can give the same display name. |
| Scenarios.CreateReadDelete | src/main/java/com/nasor/postsapi/post/infraestructure/controller/PostControllerImpl.java:58-71 | Registering Juan Gonzales and creating post "T" for him gives a response with full name "Juan Gonzales" and the write time as both timestamps. The post reads back. After a delete, both a read and a second delete fail with not-found. |
| Scenarios.StaleListing | src/main/java/com/nasor/postsapi/post/application/PostServiceImpl.java:25-60 | With two stored posts and an empty cache, reading one of them makes the next listing return only that one. The other stored post is absent from the listing. |
| Scenarios.ReadTwice | src/main/java/com/nasor/postsapi/post/application/PostServiceImpl.java:44-60 | Two reads of the same id give the same answer, whether the first hit the cache, filled it or failed. |
| Scenarios.CacheSaveThenFind | src/main/java/com/nasor/postsapi/post/infraestructure/repository/RedisPostRepositoryImpl.java:22-31 | A post saved to the cache is found under its id, equal in every field. |
| Scenarios.UpdateLeavesStaleUpdateTime | src/main/java/com/nasor/postsapi/post/infraestructure/repository/PostPostgresRepository.java:44-50 | After a post created at one time is updated at another, the cached copy has the new title and the creation time as its update time, while the stored post has the update's time. The two copies differ whenever the times differ. |
| Scenarios.UpdateCanDuplicateEmail | src/main/java/com/nasor/postsapi/user/application/UserServiceImpl.java:26-36 | The service's update does not check the new email against other users, so two users with different ids can end up with the same email. |

## Left out

- HTTP controllers, status codes, URI building and the OpenAPI configuration are not modelled. `Scenarios.CreateReadDelete` follows the create-then-render flow of the post controller, but the controller itself is not part of this model.
- Logging is not modelled: it has no effect on state.
- Bean-validation sizes on DTOs and on `PostEntity` (title 1-100, content 40-1500, `@NotBlank`, `@Email`) are enforced by the framework and are not modelled. Strings are unconstrained.
- The database-level unique constraint on the user email column (`UserEntity.java:23`) is not modelled. The model captures only what the service code checks. With that constraint, the update of `Scenarios.UpdateCanDuplicateEmail` would be rejected by the database rather than by the service.
- Transactions, concurrency, and failure between the store write and the cache write are not modelled. Each operation runs atomically and completes, which is what the preservation of both coherence relations assumes.
- PostPersistence.PostPostgresRepository.Save: a post that arrives with an id (a JPA merge of an existing or detached row) is excluded by the precondition `post.id == None`. Every caller builds the post with `registerPostToPost`, which leaves the id unset.
- PostApplication.PostService.Save: the same precondition `post.id == None` applies, for the same reason.
- UserApplication.UserService.CreateUser: a user that arrives with an id is excluded by the precondition `user.id == None`. The registration path builds the user with `updateDtoToUser`, which leaves the id unset.
- PostCaching.RedisPostRepository.Save: saving a post without an id (which Redis would file under a generated key) is excluded by the precondition `p.id.Some?`. The service only caches posts that came back from the store, and those always carry an id.
- PostCaching.RedisPostRepository.FindAllByUserId: `findAllByAuthorId` is modelled as a filter on the author id. `PostCacheEntity` declares no `@Indexed` on that field, so a real Redis repository may return nothing for that query.
- PostPersistence.PostPostgresRepository.Update: the row's update time is the `now` of the call, written when the transaction flushes after the returned post was read. Whether Hibernate stamps a row in which nothing changed is not modelled: the row is always stamped.
- PostPersistence.PostPostgresRepository.Save: the insert is taken to happen inside `save`, as identity-column inserts do, so the returned post carries both timestamps.
- The stored post row holds a copy of its author's row rather than a foreign key, so a later change to the user is not reflected in rows already written. Only the author's id is ever read from it.
- Ids are unbounded integers. Exhausting the 64-bit `Long` of the identity column is not modelled.
- Timestamps are opaque integers. `LocalDateTime` precision and time zones are not modelled.
- `postToDto` with a null user (the listing endpoint passes `null` for an unknown author) would throw. Users are never deleted, so the model's `PostToDto` always takes a user.
- Spring Data's `findAll` ordering is unspecified. Listings are stated up to order, through `Lists`.
