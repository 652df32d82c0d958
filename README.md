# TrustTrade marketplace core, modelled in Dafny

TrustTrade is a peer-to-peer marketplace. It has a React/Redux frontend and a
Django backend. This project models the client-side state logic and the
backend validators and serializers that decide what a user sees and what the
server accepts. It then proves what that logic promises.

The client-side state logic covers:

- the notification, favourites and cart stores;
- the auth and seller-registration reducers;
- the two chat rooms, the trade progress bar and the product gallery;
- the add-product and edit-product forms and the seller's product list;
- the inbox filters, the profile activity feed, the analytics page and the
  marketplace favourite hearts;
- the helper that turns media paths into URLs.

The backend side covers:

- the JWT query-string middleware;
- the model validators: age, phone, `create_user`, slug and subtotal;
- the serializer validators, getters, `create` and `update`.

Each source file becomes one module:

- **Pure code becomes functions and lemmas.** These are the reducers, filters,
  URL and name helpers, validators and getters.
- **State that the source updates in place becomes a class.** These are the
  Redux slices, the chat sessions, the product forms, the products tab, the
  marketplace page and the serializer's model instance. The class has `seq`
  fields and methods whose `ensures` state the new state in terms of
  specification functions. Lemmas then prove the promised properties about
  those functions.
- **Loops in the source stay loops.** Examples are the form-data naming loops,
  the `getCookie` scan, the image-list assembly and the favourites-by-date
  `reduce`. Each is a `method` with invariants, proved equal to its
  specification function.

Four helper modules are shared:

- `Wrappers`: `Option` and `Result`.
- `Text`: trimming with ECMAScript's and with Python's whitespace, ASCII case,
  substring search, decimal strings and `split`.
- `StableSort`: a stable insertion sort. It stands for `Array.prototype.sort`,
  which is stable.
- `Lists`: filter and remove-by-key.

Times are milliseconds since the epoch, as `int`. Money and JavaScript numbers
are `real` or whole cents. A JavaScript value that may be missing or an empty
string is an `Option<string>`, and `Some("")` is treated as falsy exactly as
the source treats `""`. Some inputs come from outside the program: network
replies, the clock, the JWT decoder, `slugify`, email normalisation,
`toLocaleDateString`, `decodeURIComponent` and `request.build_absolute_uri`.
Each of these is a parameter.

## Model

| member | source | states |
|---|---|---|
| NotificationSlice.OrderIdRoundTrip | frontend/src/redux/features/notificationSlice.js:11 | an order notification id `order-{id}` parses back to that order |
| NotificationSlice.MessageIdRoundTrip | frontend/src/redux/features/notificationSlice.js:23 | a message notification id `chat-{chat}-{id}` parses back to that chat and message |
| NotificationSlice.ParseOriginIdRoundTrip | frontend/src/redux/features/notificationSlice.js:10-36 | every generated id parses back to its origin |
| NotificationSlice.OriginIdInjective | frontend/src/redux/features/notificationSlice.js:10-36 | distinct origins never share an id |
| NotificationSlice.FromOrderRecord | frontend/src/redux/features/notificationSlice.js:10-19 | an order notification has id `order-{id}` and is read exactly when the status is not "pending" |
| NotificationSlice.FromUnreadMessage | frontend/src/redux/features/notificationSlice.js:22-36 | a message notification has id `chat-{chat}-{id}` and is unread |
| NotificationSlice.OrderNotifications | frontend/src/redux/features/notificationSlice.js:10-19 | one notification per order, position for position |
| NotificationSlice.MessageNotifications | frontend/src/redux/features/notificationSlice.js:22-36 | one notification per unread message, position for position |
| NotificationSlice.TransformToNotifications | frontend/src/redux/features/notificationSlice.js:5-43 | exactly one notification per order and message, with missing arrays as empty; a permutation of them, newest first |
| NotificationSlice.NewestFirstSorted | frontend/src/redux/features/notificationSlice.js:40-42 | sorting by the negated date orders by `created_at` descending |
| NotificationSlice.TransformIsStable | frontend/src/redux/features/notificationSlice.js:40-42 | notifications with equal dates keep their order: orders before messages |
| NotificationSlice.OrderNotificationsUnread | frontend/src/redux/features/notificationSlice.js:17 | the unread order notifications are exactly the pending orders |
| NotificationSlice.MessageNotificationsUnread | frontend/src/redux/features/notificationSlice.js:22-36 | every message notification is unread |
| NotificationSlice.TransformUnreadCount | frontend/src/redux/features/notificationSlice.js:5-43 | unread count = pending orders + unread messages |
| NotificationSlice.UnsortedDistinctIds | frontend/src/redux/features/notificationSlice.js:10-36 | distinct orders and messages give distinct ids before sorting |
| NotificationSlice.TransformDistinctIds | frontend/src/redux/features/notificationSlice.js:5-43 | distinct orders and messages give distinct ids after sorting |
| NotificationSlice.FindById | frontend/src/redux/features/notificationSlice.js:120 | the index of the first item with that id, or -1 exactly when none has it |
| NotificationSlice.AllRead | frontend/src/redux/features/notificationSlice.js:127 | every item, and only its read flag, becomes read |
| NotificationSlice.CountUpdate | frontend/src/redux/features/notificationSlice.js:119-125 | replacing one item changes the unread count by its unread flags |
| NotificationSlice.MarkFirstReadCount | frontend/src/redux/features/notificationSlice.js:119-125 | marking as read lowers the unread count by one exactly when a matching unread item exists |
| NotificationSlice.MarkFirstReadIdempotent | frontend/src/redux/features/notificationSlice.js:119-125 | marking the same id twice equals marking it once |
| NotificationSlice.MarkFirstReadFrame | frontend/src/redux/features/notificationSlice.js:119-125 | only the first item with that id may change; ids and length are kept |
| NotificationSlice.AllReadCount | frontend/src/redux/features/notificationSlice.js:126-131 | after marking all read nothing is unread |
| NotificationSlice.AllReadIdempotent | frontend/src/redux/features/notificationSlice.js:126-131 | marking all read twice equals once |
| NotificationSlice.AddIfNewKeepsDistinct | frontend/src/redux/features/notificationSlice.js:132-142 | adding keeps ids distinct and the id is present afterwards |
| NotificationSlice.AddIfNewCount | frontend/src/redux/features/notificationSlice.js:132-142 | unread count rises by one exactly when the id is new and the item unread |
| NotificationSlice.NotificationStore.constructor | frontend/src/redux/features/notificationSlice.js:108-113 | empty items, not loading, no error, zero unread |
| NotificationSlice.NotificationStore.ClearNotifications | frontend/src/redux/features/notificationSlice.js:115-118 | items emptied, unread count 0, count agrees with items |
| NotificationSlice.NotificationStore.MarkAsRead | frontend/src/redux/features/notificationSlice.js:119-125 | first matching unread item read; count lowered by one, floored at 0; the count keeps agreeing |
| NotificationSlice.NotificationStore.MarkAllAsRead | frontend/src/redux/features/notificationSlice.js:126-131 | all items read, count 0 |
| NotificationSlice.NotificationStore.AddNotification | frontend/src/redux/features/notificationSlice.js:132-142 | a new id goes first and raises the count iff unread; a known id changes nothing |
| NotificationSlice.NotificationStore.FetchPending | frontend/src/redux/features/notificationSlice.js:147-150 | loading on, error cleared, items kept |
| NotificationSlice.NotificationStore.FetchFulfilled | frontend/src/redux/features/notificationSlice.js:151-156 | items replaced; unread count is the number of unread items |
| NotificationSlice.NotificationStore.FetchRejected | frontend/src/redux/features/notificationSlice.js:157-160 | error set, loading off, items and count kept |
| ChatRoom.SortByTimestamp | frontend/src/containers/Chat_components/ChatRoom.js:167-170 | a permutation of the history in ascending timestamp order |
| ChatRoom.SortByTimestampStable | frontend/src/containers/Chat_components/ChatRoom.js:104-106 | messages with equal timestamps keep their relative order |
| ChatRoom.SortByTimestampOfSorted | frontend/src/containers/Chat_components/ChatRoom.js:104-106 | an already ordered history is left unchanged |
| ChatRoom.AppendIfNewShape | frontend/src/containers/Chat_components/ChatRoom.js:109-116 | an incoming message is appended iff its id is new; the old list is a prefix |
| ChatRoom.AppendIfNewKeepsDistinct | frontend/src/containers/Chat_components/ChatRoom.js:109-116 | message ids stay distinct |
| ChatRoom.AppendIfNewIdempotent | frontend/src/containers/Chat_components/ChatRoom.js:109-116 | receiving the same message twice equals receiving it once |
| ChatRoom.CanSendExactly | frontend/src/containers/Chat_components/ChatRoom.js:188 | sending is allowed iff the draft is not all ECMAScript whitespace, nothing is in flight and the socket is open |
| ChatRoom.SentFrames | frontend/src/containers/Chat_components/ChatRoom.js:190-211 | the message frame with the draft trimmed of ECMAScript whitespace first; a typing-stop frame follows iff a typing timer is set |
| ChatRoom.ChatSession.constructor | frontend/src/containers/Chat_components/ChatRoom.js:36-45 | empty history, empty draft, loading, not connected, no typing timer |
| ChatRoom.ChatSession.SetCurrentUser | frontend/src/containers/Chat_components/ChatRoom.js:77 | current user set, nothing else changes |
| ChatRoom.ChatSession.HandleMessageChange | frontend/src/containers/Chat_components/ChatRoom.js:182-184 | draft replaced, nothing sent; every other field unchanged |
| ChatRoom.ChatSession.OnHistoryFetched | frontend/src/containers/Chat_components/ChatRoom.js:153-177 | on success the messages are the sorted history, on failure they are kept; loading ends either way; every other field unchanged |
| ChatRoom.ChatSession.Connect | frontend/src/containers/Chat_components/ChatRoom.js:91-93 | a socket in the connecting state; every other field unchanged |
| ChatRoom.ChatSession.OnOpen | frontend/src/containers/Chat_components/ChatRoom.js:95-98 | socket open, connected; every other field unchanged |
| ChatRoom.ChatSession.OnClose | frontend/src/containers/Chat_components/ChatRoom.js:125-129 | socket closed, disconnected; every other field unchanged |
| ChatRoom.ChatSession.OnMessage | frontend/src/containers/Chat_components/ChatRoom.js:100-123 | history replaces and sorts; a message is appended if new; the sound plays for any other sender; typing sets the flag; other types change nothing; every other field unchanged |
| ChatRoom.ChatSession.SendMessage | frontend/src/containers/Chat_components/ChatRoom.js:186-211 | when allowed, sends the frame with the draft trimmed of ECMAScript whitespace and any typing-stop frame, clears the draft and ends sending; otherwise nothing changes; every other field unchanged |
| LegacyChatRoom.OtherParty | frontend/src/containers/ChatRoom.js:309-310 | a seller sees the other participant; a buyer sees the product's seller |
| LegacyChatRoom.OtherPartyIsNotSelfForBuyer | frontend/src/containers/ChatRoom.js:309-310 | a user who is not the seller never sees themself as the other party |
| LegacyChatRoom.OtherPartyInvolution | frontend/src/containers/ChatRoom.js:309-310 | in a chat between two different users, each side's other party sees that side as its other party, and nobody sees themself |
| LegacyChatRoom.LegacyChatSession.constructor | frontend/src/containers/ChatRoom.js:38-50 | empty state, no socket, no timers |
| LegacyChatRoom.LegacyChatSession.SetCurrentUser | frontend/src/containers/ChatRoom.js:81 | current user set, nothing else changes |
| LegacyChatRoom.LegacyChatSession.SetSocket | frontend/src/containers/ChatRoom.js:99-142 | socket state set, nothing else changes |
| LegacyChatRoom.LegacyChatSession.OnMessage | frontend/src/containers/ChatRoom.js:104-128 | same history, append, sound and typing rules as the newer room; every other field unchanged |
| LegacyChatRoom.LegacyChatSession.SendTypingIndicator | frontend/src/containers/ChatRoom.js:189-207 | on an open socket, sends typing-start and leaves exactly one pending stop timer; otherwise nothing is sent; every other field unchanged |
| LegacyChatRoom.LegacyChatSession.HandleMessageChange | frontend/src/containers/ChatRoom.js:209-212 | draft replaced, and the typing indicator is sent as above; every other field unchanged |
| LegacyChatRoom.LegacyChatSession.TypingTimerFires | frontend/src/containers/ChatRoom.js:200-205 | a pending timer sends typing-stop and is consumed; every other field unchanged |
| LegacyChatRoom.LegacyChatSession.SendMessage | frontend/src/containers/ChatRoom.js:214-241 | like the newer room, and the pending timer is cancelled when a timer was ever set; every other field unchanged |
| TradeProgress.FilterTruthy | frontend/src/containers/Chat_components/TradeProgress.js:5-14 | only non-empty URLs survive |
| TradeProgress.ProductImageListIsPresentUrls | frontend/src/containers/Chat_components/TradeProgress.js:5-14 | the image list is the present slots in slot order; at most six, none empty |
| TradeProgress.CurrentStep | frontend/src/containers/Chat_components/TradeProgress.js:53-57 | a step index or -1 |
| TradeProgress.CurrentStepExactly | frontend/src/containers/Chat_components/TradeProgress.js:53-57 | a step is found iff the status is one of the five; the step names that status |
| TradeProgress.CurrentStepOfEachStatus | frontend/src/containers/Chat_components/TradeProgress.js:17-25 | each listed status maps to its own position |
| TradeProgress.StepStates | frontend/src/containers/Chat_components/TradeProgress.js:78-79 | one state per step |
| TradeProgress.StepStatesShape | frontend/src/containers/Chat_components/TradeProgress.js:78-79 | steps up to the current one are completed, the next is pending, the rest upcoming |
| TradeProgress.BarWidth | frontend/src/containers/Chat_components/TradeProgress.js:66-70 | 25% per completed step beyond the first, 0 with no step |
| TradeProgress.ProgressWidth | frontend/src/containers/Chat_components/TradeProgress.js:66-70 | the width lies between 0 and 100 |
| TradeProgress.ProgressWidthSteps | frontend/src/containers/Chat_components/TradeProgress.js:66-70 | the width is 25 × step, and 100 exactly for "completed" |
| TradeProgress.ProgressWidthMonotone | frontend/src/containers/Chat_components/TradeProgress.js:66-70 | a later step never shows a shorter bar |
| TradeProgress.CancelledShowsNoProgress | frontend/src/containers/Chat_components/TradeProgress.js:127-131 | a cancelled trade shows no step and no bar; the first step is pending |
| ViewProduct.GalleryImages | frontend/src/containers/ViewProduct.js:30-37 | at most six non-empty URLs |
| ViewProduct.GalleryMatchesTradeImages | frontend/src/containers/ViewProduct.js:30-37 | the gallery lists the same images as the trade view |
| ViewProduct.NextImage | frontend/src/containers/ViewProduct.js:39-41 | the next index is in range |
| ViewProduct.PrevImage | frontend/src/containers/ViewProduct.js:43-47 | the previous index is in range |
| ViewProduct.PrevNextInverse | frontend/src/containers/ViewProduct.js:39-47 | previous undoes next and next undoes previous |
| ViewProduct.NextTimesWraps | frontend/src/containers/ViewProduct.js:39-41 | k steps forward land at i + k, wrapping once past the end |
| ViewProduct.NextCycleReturns | frontend/src/containers/ViewProduct.js:39-41 | a full cycle of next returns to the start |
| ViewProduct.ShowsArrowsIffNavigationMoves | frontend/src/containers/ViewProduct.js:92 | the arrows are drawn exactly when next or previous would change the image |
| ViewProduct.PriceLabel | frontend/src/containers/ViewProduct.js:154 | the cedi sign and the rendered price for a non-zero price; the unavailable text for a missing or zero price |
| ViewProduct.PriceLabelReadsBack | frontend/src/containers/ViewProduct.js:154 | the label starts with the cedi sign iff a non-zero price exists, and the rendered price reads back |
| HeroSlideshow.NextSlide | frontend/src/components/HeroSlideshow.js:24-26 | the next slide is in range |
| HeroSlideshow.PrevSlide | frontend/src/components/HeroSlideshow.js:28-30 | the previous slide is in range |
| HeroSlideshow.TickIsNext | frontend/src/components/HeroSlideshow.js:16-22 | the interval callback steps exactly as the "next" button |
| HeroSlideshow.PrevNextInverse | frontend/src/components/HeroSlideshow.js:24-30 | previous and next undo each other |
| HeroSlideshow.AgreesWithGallery | frontend/src/components/HeroSlideshow.js:24-30 | the slideshow steps are the gallery's steps over three slides |
| HeroSlideshow.ExactlyOneVisible | frontend/src/components/HeroSlideshow.js:36-41 | from every reachable index exactly one slide, the current one, is visible |
| MediaUrl.Rooted | frontend/src/utils/mediaURL.js:17-21 | the path gets exactly one leading slash |
| MediaUrl.GetMediaUrl | frontend/src/utils/mediaURL.js:1-22 | default avatar when empty; absolute URLs kept, except that in development one mentioning the local host has its first local origin replaced by the tunnel origin; relative paths joined to the base |
| MediaUrl.DevelopmentRewritesLocalOrigin | frontend/src/utils/mediaURL.js:7-11 | in development the local origin prefix becomes the tunnel origin |
| MediaUrl.RelativeJoin | frontend/src/utils/mediaURL.js:17-21 | base, one slash, then the path without its leading slash |
| MediaUrl.ProductionIdempotent | frontend/src/utils/mediaURL.js:1-22 | in production, resolving a resolved URL gives it back |
| UserDisplay.GetDisplayName | frontend/src/utils/userDisplay.js:1-6 | the business name for a seller that has one, else the username |
| UserDisplay.GetInitialAvatar | frontend/src/utils/userDisplay.js:8-10 | one character: the upper-cased first letter, or "?" |
| UserDisplay.DisplayedAvatar | frontend/src/utils/userDisplay.js:1-10 | a user with a username always gets a name and its initial |
| UserDisplay.InitialIgnoresCase | frontend/src/utils/userDisplay.js:8-10 | the initial does not depend on the first letter's case |
| JwtAuth.WellFormedIff | p2p_market/p2p_market/jwt_auth_middleware.py:17 | a query segment unpacks into a pair iff it holds exactly one `=` |
| JwtAuth.DictFailsIff | p2p_market/p2p_market/jwt_auth_middleware.py:17 | building the dict fails iff some non-empty segment lacks exactly one `=` |
| JwtAuth.DictLastWins | p2p_market/p2p_market/jwt_auth_middleware.py:17 | the keys are the segment names, and the last segment with a name wins |
| JwtAuth.Token | p2p_market/p2p_market/jwt_auth_middleware.py:18 | the token parameter, or "" |
| JwtAuth.Authenticate | p2p_market/p2p_market/jwt_auth_middleware.py:14-32 | the connection raises exactly when the query string is malformed |
| JwtAuth.AuthenticateOutcomes | p2p_market/p2p_market/jwt_auth_middleware.py:22-40 | a user is attached iff the token decodes to a non-zero existing user id; an invalid token gives the anonymous user |
| FavoriteSlice.RemoveFavoriteFrom | frontend/src/redux/features/favoriteSlice.js:37-39 | exactly the favourites with other ids remain |
| FavoriteSlice.RemoveFavoriteProperties | frontend/src/redux/features/favoriteSlice.js:37-39 | order and multiplicity of the others kept; removing twice equals once |
| FavoriteSlice.RemoveUndoesAdd | frontend/src/redux/features/favoriteSlice.js:34-39 | removing what was just added restores the filtered list |
| FavoriteSlice.FavoriteStore.constructor | frontend/src/redux/features/favoriteSlice.js:28-32 | empty, not loading, no error |
| FavoriteSlice.FavoriteStore.AddFavorite | frontend/src/redux/features/favoriteSlice.js:34-36 | the favourite is appended |
| FavoriteSlice.FavoriteStore.RemoveFavorite | frontend/src/redux/features/favoriteSlice.js:37-39 | all favourites with that id removed |
| FavoriteSlice.FavoriteStore.ClearFavorites | frontend/src/redux/features/favoriteSlice.js:40-42 | items emptied |
| FavoriteSlice.FavoriteStore.FetchPending | frontend/src/redux/features/favoriteSlice.js:46-48 | loading on, items kept |
| FavoriteSlice.FavoriteStore.FetchFulfilled | frontend/src/redux/features/favoriteSlice.js:49-53 | items replaced, loading off, error cleared |
| FavoriteSlice.FavoriteStore.FetchRejected | frontend/src/redux/features/favoriteSlice.js:54-57 | error set, loading off, items kept |
| CartSlice.StampAll | frontend/src/redux/features/cartSlice.js:18-21 | each cart stamped in place, position for position |
| CartSlice.StampAllProperties | frontend/src/redux/features/cartSlice.js:18-21 | every cart gets a creation time; existing times are kept; stamping again changes nothing |
| CartSlice.RemoveCartFrom | frontend/src/redux/features/cartSlice.js:43-45 | exactly the carts with other ids remain |
| CartSlice.RemoveCartProperties | frontend/src/redux/features/cartSlice.js:43-45 | order and multiplicity kept; removing twice equals once |
| CartSlice.CartStore.constructor | frontend/src/redux/features/cartSlice.js:31-35 | empty, not loading, no error |
| CartSlice.CartStore.AddCart | frontend/src/redux/features/cartSlice.js:37-42 | the cart is appended with the current time as its creation time |
| CartSlice.CartStore.RemoveCart | frontend/src/redux/features/cartSlice.js:43-45 | carts with that id removed |
| CartSlice.CartStore.ClearCarts | frontend/src/redux/features/cartSlice.js:46-48 | items emptied |
| CartSlice.CartStore.FetchPending | frontend/src/redux/features/cartSlice.js:52-54 | loading on, items kept |
| CartSlice.CartStore.FetchFulfilled | frontend/src/redux/features/cartSlice.js:55-59 | items replaced, loading off, error cleared |
| CartSlice.CartStore.FetchRejected | frontend/src/redux/features/cartSlice.js:60-63 | error set, loading off, items kept |
| AuthReducer.InitialState | frontend/src/reducers/auth.js:19-25 | tokens from storage, not authenticated, no user, loading |
| AuthReducer.AuthenticationChecks | frontend/src/reducers/auth.js:31-36 | token checks and signup keep tokens and user and stop loading; authenticated exactly on success |
| AuthReducer.LoginSuccessKeepsUser | frontend/src/reducers/auth.js:37-46 | login stores both tokens, authenticates and keeps the user |
| AuthReducer.UserLoadedOutcomes | frontend/src/reducers/auth.js:53-72 | loading the user sets it and authenticates; failure clears both; tokens kept |
| AuthReducer.EndsSessionForgets | frontend/src/reducers/auth.js:73-85 | login or signup failure and logout give one state whatever came before: no tokens, no user |
| AuthReducer.OnlyStopsLoadingExactly | frontend/src/reducers/auth.js:86-93 | activation and password-reset actions only stop loading |
| AuthReducer.SellerLoadedFrame | frontend/src/reducers/auth.js:96-113 | seller flags set on the user; other user fields and the session kept |
| AuthReducer.OtherActionIsIdentity | frontend/src/reducers/auth.js:114-115 | unknown actions leave the state unchanged |
| AuthReducer.ReduceIdempotent | frontend/src/reducers/auth.js:27-116 | applying an action twice equals once |
| AuthReducer.StorageMirrorsTokens | frontend/src/reducers/auth.js:37-85 | after login or session end, storage holds the state's tokens |
| AuthReducer.StorageAgreementPreserved | frontend/src/reducers/auth.js:27-116 | storage that agreed with the state keeps agreeing after any action |
| SellerReducer.KnownActionsForget | frontend/src/reducers/SellerReducer.js:11-25 | request, success and failure ignore the previous state |
| SellerReducer.ResultShapes | frontend/src/reducers/SellerReducer.js:13-25 | request is loading only; success carries the info; failure carries the error |
| SellerReducer.OtherActionIsIdentity | frontend/src/reducers/SellerReducer.js:26-27 | unknown actions change nothing |
| SellerReducer.FinishedAfterResult | frontend/src/reducers/SellerReducer.js:15-25 | after a result, loading is off and exactly one of success and error is set |
| Marketplace.EntryValueFirstWins | p2p_market/p2p_site/static/p2p_site/js/marketplace.js:140-147 | the first entry naming the cookie gives the value |
| Marketplace.EntryValueNone | p2p_market/p2p_site/static/p2p_site/js/marketplace.js:140-149 | no matching entry gives null |
| Marketplace.CookieValueFirstWins | p2p_market/p2p_site/static/p2p_site/js/marketplace.js:137-150 | the first `;`-separated entry naming the cookie gives the decoded value |
| Marketplace.CookieValueEmpty | p2p_market/p2p_site/static/p2p_site/js/marketplace.js:139 | an empty cookie string gives null |
| Marketplace.ScanEntries | p2p_market/p2p_site/static/p2p_site/js/marketplace.js:141-147 | the loop that stops at the first trimmed entry beginning with `name=` returns that entry's decoded value, and null when no entry carries the name |
| Marketplace.GetCookie | p2p_market/p2p_site/static/p2p_site/js/marketplace.js:137-150 | null for an empty cookie string, otherwise the value the first entry carrying the name gives |
| Marketplace.ApplySave | p2p_market/p2p_site/static/p2p_site/js/marketplace.js:118-128 | saving appends the product; unsaving removes it and keeps the others |
| Marketplace.ClickFlipsHeart | p2p_market/p2p_site/static/p2p_site/js/marketplace.js:51-72 | a confirmed click flips that product's heart and no other |
| Marketplace.TwoClicksRestore | p2p_market/p2p_site/static/p2p_site/js/marketplace.js:63-128 | two confirmed clicks restore the favourite list |
| Marketplace.MarketplacePage.constructor | p2p_market/p2p_site/static/p2p_site/js/marketplace.js:34 | no favourites, zero count |
| Marketplace.MarketplacePage.LoadUserFavourites | p2p_market/p2p_site/static/p2p_site/js/marketplace.js:37-48 | on success the list is loaded and the badge counts it; otherwise unchanged |
| Marketplace.MarketplacePage.HeartClick | p2p_market/p2p_site/static/p2p_site/js/marketplace.js:63-72 | requests the opposite of the current favourite status |
| Marketplace.MarketplacePage.OnSaveResponse | p2p_market/p2p_site/static/p2p_site/js/marketplace.js:105-133 | on success the list and badge update; on failure nothing changes |
| AddProducts.MainCountZero | frontend/src/containers/Dashboard_Components/Products_Tab/AddProducts.js:56-60 | no image flagged main means a main count of 0 |
| AddProducts.MainCountOfMainAt | frontend/src/containers/Dashboard_Components/Products_Tab/AddProducts.js:79-85 | a single flagged image means a main count of 1 |
| AddProducts.OneMainHasIndex | frontend/src/containers/Dashboard_Components/Products_Tab/AddProducts.js:79-85 | a main count of 1 means some index holds the main image |
| AddProducts.UploadAsWritten | frontend/src/containers/Dashboard_Components/Products_Tab/AddProducts.js:47-64 | rejected with the error iff more than six images in total; otherwise the files are appended in order, each main iff the form had no image |
| AddProducts.UploadAsWrittenKeepsMain | frontend/src/containers/Dashboard_Components/Products_Tab/AddProducts.js:47-64 | an accepted upload keeps at most six images and keeps a main image |
| AddProducts.UploadAsWrittenFirstBatchAllMain | frontend/src/containers/Dashboard_Components/Products_Tab/AddProducts.js:56-60 | every file of a first batch is main, so a batch of two or more gives several main images |
| AddProducts.Upload | frontend/src/containers/Dashboard_Components/Products_Tab/AddProducts.js:56-60 | the corrected upload (see Findings): as written, except that only the first file of a first batch is main |
| AddProducts.UploadKeepsOneMain | frontend/src/containers/Dashboard_Components/Products_Tab/AddProducts.js:56-60 | the corrected upload keeps exactly one main image, with at most six images |
| AddProducts.UploadAgreesAsWrittenOutsideFirstBatch | frontend/src/containers/Dashboard_Components/Products_Tab/AddProducts.js:56-60 | the corrected and the as-written upload differ only on a first batch of two or more files |
| AddProducts.RemoveImageFrom | frontend/src/containers/Dashboard_Components/Products_Tab/AddProducts.js:66-77 | one image fewer |
| AddProducts.RemoveImageKeepsOneMain | frontend/src/containers/Dashboard_Components/Products_Tab/AddProducts.js:66-77 | the other files keep their order, and a single main image stays single |
| AddProducts.RemoveImageKeepsMain | frontend/src/containers/Dashboard_Components/Products_Tab/AddProducts.js:66-77 | a main image survives removal: the first image takes over when the main one goes |
| AddProducts.SetMainImageIn | frontend/src/containers/Dashboard_Components/Products_Tab/AddProducts.js:79-85 | each image is main iff it is at the index |
| AddProducts.SetMainImageExactlyOne | frontend/src/containers/Dashboard_Components/Products_Tab/AddProducts.js:79-85 | exactly the chosen image is main |
| AddProducts.SelectCategory | frontend/src/containers/Dashboard_Components/Products_Tab/AddProducts.js:87-96 | an id already chosen leaves the list unchanged; a new id is appended at the end |
| AddProducts.RemoveCategory | frontend/src/containers/Dashboard_Components/Products_Tab/AddProducts.js:98-103 | every occurrence of the id goes; every other id stays |
| AddProducts.CategorySelectRemove | frontend/src/containers/Dashboard_Components/Products_Tab/AddProducts.js:87-103 | selection keeps ids distinct, and removal undoes a fresh selection |
| AddProducts.FilteredCategories | frontend/src/containers/Dashboard_Components/Products_Tab/AddProducts.js:105-107 | exactly the categories whose name contains the search, ignoring case |
| AddProducts.FilteredCategoriesEmptySearch | frontend/src/containers/Dashboard_Components/Products_Tab/AddProducts.js:105-107 | an empty search shows every category |
| AddProducts.ImageFieldNameNotMain | frontend/src/containers/Dashboard_Components/Products_Tab/AddProducts.js:132-133 | `image{k}` is never the main-image field |
| AddProducts.SubmitImageFields | frontend/src/containers/Dashboard_Components/Products_Tab/AddProducts.js:126-139 | the naming loop and its fallback compute the field list |
| AddProducts.ImageFieldsFromStep | frontend/src/containers/Dashboard_Components/Products_Tab/AddProducts.js:126-135 | one loop step names image i from its position relative to the main image |
| AddProducts.ImageFieldsFromOneMain | frontend/src/containers/Dashboard_Components/Products_Tab/AddProducts.js:126-135 | from any point on, each image gets its expected name |
| AddProducts.ImageFieldsOneMain | frontend/src/containers/Dashboard_Components/Products_Tab/AddProducts.js:126-139 | with one main image, that image is `main_image` and the others are image1, image2, … in order |
| AddProducts.ImageFieldNamesDistinct | frontend/src/containers/Dashboard_Components/Products_Tab/AddProducts.js:126-139 | with one main image, no two files share a field name |
| AddProducts.ImageFieldsFromAllMain | frontend/src/containers/Dashboard_Components/Products_Tab/AddProducts.js:126-139 | when every image is main, each is sent as `main_image` in order and no fallback is added |
| AddProducts.SubmitAfterBatchUploadRepeatsMainImage | frontend/src/containers/Dashboard_Components/Products_Tab/AddProducts.js:56-60 | after a first batch, every file is sent under the one name `main_image` and none as `image<k>` |
| AddProducts.ImageFieldsFromHasMain | frontend/src/containers/Dashboard_Components/Products_Tab/AddProducts.js:126-139 | the naming loop and its fallback always send a `main_image` field for a non-empty list |
| AddProducts.CanSubmitSendsMainImage | frontend/src/containers/Dashboard_Components/Products_Tab/AddProducts.js:463 | when submit is enabled there is a category and the submission carries a `main_image` field |
| AddProducts.AddProductForm.constructor | frontend/src/containers/Dashboard_Components/Products_Tab/AddProducts.js:8-15 | empty images, categories, error and search; dropdown closed |
| AddProducts.AddProductForm.HandleImageUpload | frontend/src/containers/Dashboard_Components/Products_Tab/AddProducts.js:47-64 | the as-written upload: the error and unchanged images, or the uploaded images with the error cleared; a main image is kept; categories, dropdown and search unchanged |
| AddProducts.AddProductForm.RemoveImage | frontend/src/containers/Dashboard_Components/Products_Tab/AddProducts.js:66-77 | the image removed, with the main image moved to the new first image when needed; a main image is kept; every other field unchanged |
| AddProducts.AddProductForm.SetMainImage | frontend/src/containers/Dashboard_Components/Products_Tab/AddProducts.js:79-85 | exactly the chosen image is main, whatever several images were main before; every other field unchanged |
| AddProducts.AddProductForm.HandleCategorySelect | frontend/src/containers/Dashboard_Components/Products_Tab/AddProducts.js:87-96 | id added once; dropdown closed; search cleared; images and error unchanged |
| AddProducts.AddProductForm.RemoveCategoryId | frontend/src/containers/Dashboard_Components/Products_Tab/AddProducts.js:98-103 | every occurrence of the id removed; every other field unchanged |
| EditProduct.ExtraEntries | frontend/src/containers/Dashboard_Components/Products_Tab/EditProduct.js:100-108 | at most one entry per slot |
| EditProduct.ExtraEntriesSnoc | frontend/src/containers/Dashboard_Components/Products_Tab/EditProduct.js:100-108 | one more slot adds that slot's entry at the end |
| EditProduct.AssembleImages | frontend/src/containers/Dashboard_Components/Products_Tab/EditProduct.js:91-108 | the push loop builds the loaded image list |
| EditProduct.Urls | frontend/src/containers/Dashboard_Components/Products_Tab/EditProduct.js:91-108 | the URL of each entry, position for position |
| EditProduct.ExtraEntriesProperties | frontend/src/containers/Dashboard_Components/Products_Tab/EditProduct.js:100-108 | the extra entries are the present slots, none main |
| EditProduct.LoadedImagesProperties | frontend/src/containers/Dashboard_Components/Products_Tab/EditProduct.js:91-108 | the present URLs in slot order, at most six, main iff first and from the main slot |
| EditProduct.MainAmongExisting | frontend/src/containers/Dashboard_Components/Products_Tab/EditProduct.js:172-192 | each existing image is main iff it is at the index |
| EditProduct.MainAmongNew | frontend/src/containers/Dashboard_Components/Products_Tab/EditProduct.js:172-192 | each new image is main iff it is at the index |
| EditProduct.SetMainExactlyOne | frontend/src/containers/Dashboard_Components/Products_Tab/EditProduct.js:172-192 | exactly the chosen image is main across both lists |
| EditProduct.UploadNew | frontend/src/containers/Dashboard_Components/Products_Tab/EditProduct.js:141-158 | rejected iff the total passes six; otherwise the files are appended, not main |
| EditProduct.RemoveIndex | frontend/src/containers/Dashboard_Components/Products_Tab/EditProduct.js:160-162 | drops the entry at an index in range; any other index changes nothing |
| EditProduct.UploadKeepsAtMostOneMain | frontend/src/containers/Dashboard_Components/Products_Tab/EditProduct.js:141-158 | an upload never adds a second main image |
| EditProduct.RemoveIndexAt | frontend/src/containers/Dashboard_Components/Products_Tab/EditProduct.js:160-170 | the remaining entries keep their order |
| EditProduct.RemoveExistingKeepsAtMostOneMain | frontend/src/containers/Dashboard_Components/Products_Tab/EditProduct.js:160-162 | removing never adds a main image |
| EditProduct.RemoveNewKeepsAtMostOneMain | frontend/src/containers/Dashboard_Components/Products_Tab/EditProduct.js:164-170 | removing never adds a main image |
| EditProduct.FilteredCategories | frontend/src/containers/Dashboard_Components/Products_Tab/EditProduct.js:135-138 | exactly the unselected categories whose name matches, ignoring case |
| EditProduct.SelectFromFilteredStaysDistinct | frontend/src/containers/Dashboard_Components/Products_Tab/EditProduct.js:135-138 | picking from the filtered list keeps the selection distinct |
| EditProduct.NewImageFields | frontend/src/containers/Dashboard_Components/Products_Tab/EditProduct.js:236-243 | one field per new image, position for position |
| EditProduct.SubmitFieldsMainImage | frontend/src/containers/Dashboard_Components/Products_Tab/EditProduct.js:230-254 | at most one `main_image` field; the fallback marks the first existing image, else sends the first new one |
| EditProduct.CanSubmitDesignatesMain | frontend/src/containers/Dashboard_Components/Products_Tab/EditProduct.js:613 | when submit is enabled there is a category and the submission names a main image, as a file or as an existing image marked main |
| EditProduct.MainImageFieldPosition | frontend/src/containers/Dashboard_Components/Products_Tab/EditProduct.js:234-254 | a `main_image` field is either the one main new image or the fallback |
| EditProduct.SubmitImageFields | frontend/src/containers/Dashboard_Components/Products_Tab/EditProduct.js:230-254 | the flag loop computes the submitted fields |
| EditProduct.EditProductForm.constructor | frontend/src/containers/Dashboard_Components/Products_Tab/EditProduct.js:24-31 | empty lists, no error, dropdown closed, empty search |
| EditProduct.EditProductForm.Load | frontend/src/containers/Dashboard_Components/Products_Tab/EditProduct.js:34-117 | a loaded product gives the existing images and categories and leaves the error; a non-seller or a failed request sets its error and keeps the images and categories; new files, dropdown and search unchanged |
| EditProduct.EditProductForm.HandleImageUpload | frontend/src/containers/Dashboard_Components/Products_Tab/EditProduct.js:141-158 | the error and unchanged lists, or the appended new images with the error cleared; categories, dropdown and search unchanged |
| EditProduct.EditProductForm.RemoveExistingImage | frontend/src/containers/Dashboard_Components/Products_Tab/EditProduct.js:160-162 | that existing image removed; every other field unchanged |
| EditProduct.EditProductForm.RemoveNewImage | frontend/src/containers/Dashboard_Components/Products_Tab/EditProduct.js:164-170 | that new image removed; every other field unchanged |
| EditProduct.EditProductForm.SetMainImage | frontend/src/containers/Dashboard_Components/Products_Tab/EditProduct.js:172-192 | exactly the chosen image main across both lists; categories, error, dropdown and search unchanged |
| EditProduct.EditProductForm.HandleCategorySelect | frontend/src/containers/Dashboard_Components/Products_Tab/EditProduct.js:195-202 | id appended, dropdown closed, search cleared; images and error unchanged |
| EditProduct.EditProductForm.RemoveCategoryId | frontend/src/containers/Dashboard_Components/Products_Tab/EditProduct.js:204-209 | every occurrence of the id removed; every other field unchanged |
| EditProduct.EditProductForm.Submit | frontend/src/containers/Dashboard_Components/Products_Tab/EditProduct.js:212-276 | the submitted fields, with the first existing image marked main in place by the fallback; the error is the rejected request's message or cleared; new files, categories, dropdown and search unchanged |
| ProductsTab.VisibleProducts | frontend/src/containers/Dashboard_Components/Products_Tab/ProductsTab.js:213-217 | exactly the products whose name or description contains the term, ignoring case |
| ProductsTab.VisibleProductsOrder | frontend/src/containers/Dashboard_Components/Products_Tab/ProductsTab.js:213-217 | list order kept; an empty term shows all |
| ProductsTab.WithoutProduct | frontend/src/containers/Dashboard_Components/Products_Tab/ProductsTab.js:147 | exactly the products with other ids remain |
| ProductsTab.WithoutProductProperties | frontend/src/containers/Dashboard_Components/Products_Tab/ProductsTab.js:147 | order and multiplicity kept; removing twice equals once |
| ProductsTab.ProductsTabState.constructor | frontend/src/containers/Dashboard_Components/Products_Tab/ProductsTab.js:70-74 | modal closed, nothing selected, not deleting |
| ProductsTab.ProductsTabState.HandleDeleteClick | frontend/src/containers/Dashboard_Components/Products_Tab/ProductsTab.js:123-126 | product selected, modal open |
| ProductsTab.ProductsTabState.HandleDeleteConfirm | frontend/src/containers/Dashboard_Components/Products_Tab/ProductsTab.js:130-155 | nothing without a selection; a successful delete removes it and closes the modal; a failed one keeps everything; deleting ends either way |
| ProductsTab.ProductsTabState.ConfirmClick | frontend/src/containers/Dashboard_Components/Products_Tab/ProductsTab.js:43-44 | confirming acts only on the exact word DELETE and never while deleting |
| ProductsTab.ProductsTabState.HandleDeleteCancel | frontend/src/containers/Dashboard_Components/Products_Tab/ProductsTab.js:157-160 | modal closed, selection cleared, products kept |
| Inbox.FilteredChats | frontend/src/containers/Inbox.js:69-79 | exactly the chats that match the search and the tab |
| Inbox.FilteredChatsOrder | frontend/src/containers/Inbox.js:69-79 | list order kept; every shown chat matches the search |
| Inbox.UnknownModeIsAll | frontend/src/containers/Inbox.js:78 | an unknown tab behaves as "all" |
| Inbox.SellingBuyingPartition | frontend/src/containers/Inbox.js:76-77 | "selling" and "buying" split "all" with no overlap |
| Inbox.PendingResponsesIsUnreadFilter | frontend/src/containers/Inbox.js:195 | the pending count is the size of the unread tab with an empty search |
| Inbox.RelativeTimeThresholds | frontend/src/containers/Inbox.js:55-67 | the clock time under 24 h, "Yesterday" under 48 h, else the date |
| Inbox.RelativeTimeMonotone | frontend/src/containers/Inbox.js:55-67 | an older message never shows a more recent label |
| UserProfile.OrElse | frontend/src/containers/UserProfile.js:114 | the value when non-empty, else the fallback |
| UserProfile.AllActivities | frontend/src/containers/UserProfile.js:108-127 | one activity per chat and per favourite, with missing lists as empty |
| UserProfile.NewestFive | frontend/src/containers/UserProfile.js:131 | sort-then-slice keeps the newest five, newest first |
| UserProfile.RecentActivitiesAreNewest | frontend/src/containers/UserProfile.js:102-135 | at most five, newest first, taken from the input, nothing newer left out |
| UserProfile.ActivityLabelsNonEmpty | frontend/src/containers/UserProfile.js:108-127 | every chat names a product and every favourite a category |
| UserProfile.Capitalize | frontend/src/containers/UserProfile.js:37 | first letter upper-cased, rest kept |
| UserProfile.CapitalizeOnlyFirst | frontend/src/containers/UserProfile.js:37 | the label differs from the status only in the first letter's case |
| UserProfile.StatusStyleGrayIff | frontend/src/containers/UserProfile.js:26-36 | gray exactly for statuses outside the table |
| UserProfile.HeaderName | frontend/src/containers/UserProfile.js:204 | the full name with ECMAScript whitespace trimmed, when non-blank |
| UserProfile.HeaderNameFallback | frontend/src/containers/UserProfile.js:204 | names made only of ECMAScript whitespace show the username |
| FavoritesPanel.FilteredFavorites | frontend/src/components/FavoritesPanel.js:43-45 | exactly the favourites whose name contains the term, ignoring case |
| FavoritesPanel.FilteredFavoritesOrder | frontend/src/components/FavoritesPanel.js:43-45 | order kept; an empty term shows all |
| FavoritesPanel.HandleRemoveFavorite | frontend/src/components/FavoritesPanel.js:21-41 | nothing is requested when logged out; the store changes only after a successful delete |
| ProductImages.Slots | frontend/src/containers/Chat_components/TradeProgress.js:5-12 | six slots: main, then image1 to image5 |
| ProductImages.PresentUrls | frontend/src/containers/Chat_components/TradeProgress.js:5-14 | at most one URL per slot, none empty, every present one kept |
| ProductImages.PresentUrlsAppend | frontend/src/containers/Chat_components/TradeProgress.js:5-14 | filtering distributes over concatenation |
| ProductImages.PresentUrlsEmptyIff | frontend/src/containers/Chat_components/TradeProgress.js:5-14 | no images iff no slot is present |
| ProductImages.PresentUrlsAllPresent | frontend/src/containers/Chat_components/TradeProgress.js:5-14 | all slots present gives all URLs in order |
| ProductAnalytics.DateKeys | frontend/src/containers/Dashboard_Components/ProductAnalytics.js:63 | the date key of each favourite |
| ProductAnalytics.GroupWellFormed | frontend/src/containers/Dashboard_Components/ProductAnalytics.js:62-66 | each key listed once, every key counted |
| ProductAnalytics.GroupCounts | frontend/src/containers/Dashboard_Components/ProductAnalytics.js:62-66 | the keys are the dates seen; each count is that date's multiplicity |
| ProductAnalytics.StepSum | frontend/src/containers/Dashboard_Components/ProductAnalytics.js:64 | one step raises the total by one |
| ProductAnalytics.GroupSum | frontend/src/containers/Dashboard_Components/ProductAnalytics.js:62-66 | the counts add up to the number of favourites |
| ProductAnalytics.Entries | frontend/src/containers/Dashboard_Components/ProductAnalytics.js:68-71 | one entry per key |
| ProductAnalytics.EntrySumIsSum | frontend/src/containers/Dashboard_Components/ProductAnalytics.js:68-71 | the entries carry the grouped counts |
| ProductAnalytics.FavoritesByDateEntries | frontend/src/containers/Dashboard_Components/ProductAnalytics.js:61-72 | distinct dates; each favourite's date appears; each count is positive and exact |
| ProductAnalytics.GroupFirstSeenOrder | frontend/src/containers/Dashboard_Components/ProductAnalytics.js:61-67 | the accumulator lists its dates in the order they are first seen |
| ProductAnalytics.FavoritesByDateFirstSeen | frontend/src/containers/Dashboard_Components/ProductAnalytics.js:61-72 | the chart's entries come in the order their dates first occur in the favourites |
| ProductAnalytics.FavoritesByDateSum | frontend/src/containers/Dashboard_Components/ProductAnalytics.js:61-87 | the chart sums to the total card |
| ProductAnalytics.GetFavoritesByDate | frontend/src/containers/Dashboard_Components/ProductAnalytics.js:61-72 | the `reduce` loop computes the chart data |
| ProductAnalytics.UserIds | frontend/src/containers/Dashboard_Components/ProductAnalytics.js:96 | exactly the users who favourited |
| ProductAnalytics.UniqueUsersBounds | frontend/src/containers/Dashboard_Components/ProductAnalytics.js:87-96 | unique users ≤ total; ≥ 1 when there is a favourite; = total without repeats |
| SiteModels.ValidateAge | p2p_market/p2p_site/models.py:11-15 | rejected exactly when younger than 18 |
| SiteModels.AgeIsBirthdaysReached | p2p_market/p2p_site/models.py:11-15 | the age is at least n iff the n-th birthday has come |
| SiteModels.EighteenTodayAccepted | p2p_market/p2p_site/models.py:11-15 | an 18th birthday today passes; tomorrow's fails |
| SiteModels.PhoneValidIff | p2p_market/p2p_site/models.py:51-55 | the checker accepts exactly the pattern `^\+?1?\d{9,15}$` |
| SiteModels.ShapeDigitEnds | p2p_market/p2p_site/models.py:51-53 | an accepted number ends in digits |
| SiteModels.ShapeEnds | p2p_market/p2p_site/models.py:51-53 | the optional plus and trailing newline sit at the ends |
| SiteModels.AcceptedPhoneFitsColumn | p2p_market/p2p_site/models.py:51-55 | every accepted number fits the 17-character column |
| SiteModels.CreateUser | p2p_market/p2p_site/models.py:18-32 | email required first, then username; otherwise the normalised user |
| SiteModels.FullNameParts | p2p_market/p2p_site/models.py:70-71 | first name, a space, last name |
| SiteModels.SaveSlug | p2p_market/p2p_site/models.py:162-165 | an existing slug is kept |
| SiteModels.SaveSlugIdempotent | p2p_market/p2p_site/models.py:162-165 | saving twice gives the same slug |
| SiteModels.SubtotalIsRepeatedSum | p2p_market/p2p_site/models.py:237-238 | for every quantity, the subtotal is the unit price added quantity times |
| Serializers.ValidateSalePrice | p2p_market/p2p_site/serializers.py:181-184 | accepted iff positive, unchanged |
| Serializers.ValidateStock | p2p_market/p2p_site/serializers.py:186-189 | accepted iff absent or non-negative, unchanged |
| Serializers.ValidateRegister | p2p_market/p2p_site/serializers.py:45-49 | accepted iff the passwords match; else an error on "password" |
| Serializers.ValidatorsAreFilters | p2p_market/p2p_site/serializers.py:45-189 | validating an accepted value again accepts it again |
| Serializers.SellerId | p2p_market/p2p_site/serializers.py:30-33 | the seller's id iff the user has a seller profile |
| Serializers.SellerName | p2p_market/p2p_site/serializers.py:248-249 | the business name, or "" |
| Serializers.BuyerName | p2p_market/p2p_site/serializers.py:245-246 | the full name with Python's whitespace stripped, or the username when that is blank |
| Text.TrimmedEnds | p2p_market/p2p_site/serializers.py:246 | a non-empty trimmed string has no whitespace, in the chosen language's sense, at either end |
| Serializers.BuyerNameProperties | p2p_market/p2p_site/serializers.py:245-246 | a full name has no Python whitespace at its ends; names blank to Python give the username |
| Serializers.BuyerNameMatchesProfileHeader | p2p_market/p2p_site/serializers.py:245-246 | the serializer and the profile header name a user alike when the names hold none of the six characters Python and ECMAScript classify differently |
| Serializers.BuyerNameKeepsByteOrderMark | p2p_market/p2p_site/serializers.py:245-246 | example: a first name that is only U+FEFF is sent by the server but blank to the profile header |
| Serializers.ImageUrl | p2p_market/p2p_site/serializers.py:139-145 | an absolute URL iff the image and the request exist |
| Serializers.ProfilePhotoUrl | p2p_market/p2p_site/serializers.py:91-97 | absolute with a request, the raw path without one, none without a photo |
| Serializers.PhotoAndImageGetters | p2p_market/p2p_site/serializers.py:91-145 | the two getters differ only without a request |
| Serializers.ImageUrls | p2p_market/p2p_site/serializers.py:139-179 | one URL getter per slot |
| Serializers.ImageUrlsCarryPresentImages | p2p_market/p2p_site/serializers.py:139-179 | the non-null URLs are the present images, built in order |
| Serializers.ProductImageUrls | p2p_market/p2p_site/serializers.py:139-179 | the six URL getters of a product, one per image slot |
| Serializers.ProductImageUrlsMatchGallery | p2p_market/p2p_site/serializers.py:139-179 | the serialized URLs are what the gallery shows |
| Serializers.AppliedKeeps | p2p_market/p2p_site/serializers.py:201-208 | fields not written, and categories, are kept |
| Serializers.AppliedSetsLast | p2p_market/p2p_site/serializers.py:201-208 | each written field takes its last value |
| Serializers.CategoryIds | p2p_market/p2p_site/serializers.py:192 | the category ids of the validated data, none when absent |
| Serializers.ProductInstance.Create | p2p_market/p2p_site/serializers.py:191-199 | the fields are the validated data without `categories`, the categories relation is the given ids, and the product is saved once |
| Serializers.ProductInstance.Update | p2p_market/p2p_site/serializers.py:201-208 | all validated fields but categories applied, the categories relation unchanged, then one save |

## Left out

- The network is not modelled. Axios calls, thunks and WebSocket sends are inputs (a success flag, an outcome, a failure message, a payload) or an append to an outbox sequence.
- Timers are not modelled as timers. The 3 s reconnect, scroll-to-bottom and the 5 s slideshow interval are not timed; a firing is a method (`TypingTimerFires`, `Tick`).
- Object URLs are not modelled: `URL.createObjectURL` and `revokeObjectURL`. Uploaded files are opaque numbers.
- The non-image `FormData` fields are not modelled, and neither is the server's handling of what the forms send.
- `localStorage` is a value returned beside the auth state (`AuthReducer.Storage`), not a global store.
- Date parsing, locales and time zones are not modelled. `toLocaleDateString`, `toLocaleTimeString` and `new Date(...)` are parameters or integer milliseconds.
- `decodeURIComponent` is a parameter. Its exception on malformed input is not modelled.
- JWT signature checking and expiry are not modelled. They are inside the `decode` parameter; the middleware's own choices around it are modelled.
- `SiteModels.PhoneValidIff`: Python's `\d` also matches non-ASCII digits. The model accepts ASCII digits only.
- Case folding is ASCII only: `toLowerCase` and `toUpperCase` on non-ASCII letters are not modelled.
- Whitespace follows ECMA-262 for `trim` and Python's `str.isspace` for `strip`, as of Unicode 15; a later Unicode version that reclassifies a character is not modelled.
- `UserProfile.StatusStyleGrayIff`: a status naming an `Object.prototype` key (such as "constructor") is not modelled. In JavaScript it would look up an inherited property rather than fall back to gray.
- `create_superuser` is not modelled separately. It sets two flags and delegates to `create_user`, which is modelled.
- Database persistence is not modelled. `instance.save()` is a save counter, and the categories relation is a field of the instance. Fields a new product takes from model defaults are not modelled.
- `SiteModels.SubtotalIsRepeatedSum`: prices are whole cents. Decimal rounding of `unit_price` is not modelled.
- `AddProducts.AddProductForm.RemoveImage`: requires the index to be in range. The source reads `images[index].preview` first, which throws otherwise.
- `AddProducts.AddProductForm.SetMainImage`: requires the index to be in range. It is only called from a rendered image.
- `EditProduct.EditProductForm.RemoveNewImage`: requires the index to be in range, for the same reason as `RemoveImage` (`prev[index].preview`).
- `EditProduct.EditProductForm.SetMainImage`: requires the index to be in range. It is only called from a rendered image.
- `EditProduct.EditProductForm.Load`: requires that no file was added yet. The fetch runs on mount, and the form renders only a loader until it ends (EditProduct.js:123). The category list it fetches, the other form fields and the redirect of a non-seller to the dashboard are not modelled.
- `EditProduct.EditProductForm.Submit`: the success message, the loading flag and the delayed navigation after a successful update are not modelled; a failure is given as its message, already chosen from the response, the exception or the default text.
- `ViewProduct.PriceLabel`: a `NaN` price, also falsy in JavaScript, is not modelled, since a `real` has no `NaN`. How a number is written out is the parameter `show`.
- `ViewProduct.NextImage` requires a non-empty gallery. The arrows render only when there is more than one image; `% 0` would give `NaN`.
- `ViewProduct.PrevImage` requires a non-empty gallery, for the same reason.
- Trade-stage transitions, role-gated trade actions, per-stage timestamps, optimistic-message reconciliation and a "failed" delivery state are not modelled. The source has none of them: TradeProgress.js only displays a status it is given.
- The legacy room's `getProductImages` (frontend/src/containers/ChatRoom.js:295-304) is the same code as TradeProgress.js:5-14. It is modelled once, as `TradeProgress.ProductImageList`.
- The newer chat room never assigns `typingTimeoutRef.current`. Its typing-stop branch is modelled, but no method ever sets `typingTimerSet`.
- The notification sound plays for every incoming message from another sender, including a duplicate id that is not appended. The model follows the code here, not the "once per message" description.
- In the edit form, new images that are not main are named `image{index}` from 0, as written. `image0` is not a field the backend reads; this is modelled, not corrected.
- Aliasing is not modelled. Objects shared between the old and new image arrays in the edit form are copied values, so the in-place `isMain` write in `handleSubmit` appears as an explicit update of `existingImages[0]`.

## Findings

| source | as written | input that shows it | evidently intended | confidence | as-written member | corrected member |
|---|---|---|---|---|---|---|
| frontend/src/containers/Dashboard_Components/Products_Tab/AddProducts.js:56-60 | every file of the first upload batch is marked main, because `isMain` tests only that the old list was empty | uploading two files into an empty form marks both main; submit then sends `main_image` twice and no `image1` | only the first file of the first batch is main, so submit sends one `main_image` and names the rest image1, image2, … | not executed | AddProducts.SubmitAfterBatchUploadRepeatsMainImage | AddProducts.UploadKeepsOneMain |

The form class `AddProducts.AddProductForm` follows the code as written: it applies `UploadAsWritten` and keeps only the weaker invariant that some image is main. `Upload`, `UploadKeepsOneMain` and `UploadAgreesAsWrittenOutsideFirstBatch` state the corrected behaviour and how far it departs from the code.
